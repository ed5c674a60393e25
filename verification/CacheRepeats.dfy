/** When repeated access expressions make the cache formula wrong. The formula counts first occurrences and the cache
    follows last ones; for symbolic expressions and the configured number of ways, the exact condition is on the two
    sequences of occurrences after the target's own last use. */
module CacheRepeats {
  import opened Words
  import opened CacheLines
  import opened CacheUtil
  import opened Lru
  import opened CacheTrace

  // --- The condition -----------------------------------------------------------------------------------

  /** Where at least `ways` expressions of `p` follow `u`, all of them follow it in `q` as well. */
  predicate CoveredAt(ways: nat, p: seq<Addr>, q: seq<Addr>, u: Addr)
  {
    |After(u, p)| >= ways ==> forall a :: a in After(u, p) ==> a in After(u, q)
  }

  ghost predicate Covered(ways: nat, p: seq<Addr>, q: seq<Addr>)
  {
    forall u: Addr :: CoveredAt(ways, p, q, u)
  }

  predicate SameLast(p: seq<Addr>, q: seq<Addr>)
  {
    (p == [] <==> q == []) && (p != [] ==> p[|p| - 1] == q[|q| - 1])
  }

  /** How many lines share a set. */
  function Tags(c: Config): nat
    requires c.line > 0 && c.sets > 0
  {
    TagOf(c, W64 - 1) + 1
  }

  ghost predicate Harmless(c: Config, t: Addr, tr: seq<Addr>)
    requires c.line > 0 && c.sets > 0
  {
    var p, q := After(t, KeepFirst(tr)), After(t, KeepLast(tr));
    || c.ways >= Tags(c)
    || if c.sets == 1 && c.ways == 1 then SameLast(p, q) else Covered(c.ways, p, q) && Covered(c.ways, q, p)
  }

  // --- It suffices, for all traces -----------------------------------------------------------------------

  /** The last expression of `q` that reloads `x`, or `t`. */
  function LastReload(c: Config, x: nat, t: Addr, q: seq<Addr>, s: Assignment): Addr
    requires c.line > 0 && c.sets > 0
  {
    if q == [] then t
    else if Reloads(c, x, Eval(q[|q| - 1], s)) then q[|q| - 1]
    else LastReload(c, x, t, q[..|q| - 1], s)
  }

  lemma {:induction false} AfterLastReload(c: Config, x: nat, t: Addr, q: seq<Addr>, s: Assignment)
    requires c.line > 0 && c.sets > 0 && Reloads(c, x, Eval(t, s))
    ensures var v := LastReload(c, x, t, q, s);
      Reloads(c, x, Eval(v, s)) && forall a :: a in After(v, q) ==> !Reloads(c, x, Eval(a, s))
  {
    hide Reloads, Eval;
    if q != [] && !Reloads(c, x, Eval(q[|q| - 1], s)) {
      AfterLastReload(c, x, t, q[..|q| - 1], s);
    }
  }

  /** With nothing reloaded the lines are those of the conflicting expressions. */
  lemma {:induction false} SinceOfElems(c: Config, x: nat, p: seq<Addr>, s: Assignment)
    requires c.line > 0 && c.sets > 0
    ensures forall y :: y in Since(c, x, Values(p, s)) ==>
      exists a :: a in p && Conflicts(c, x, Eval(a, s)) && TagOf(c, Eval(a, s)) == y
    ensures (forall a :: a in p ==> !Reloads(c, x, Eval(a, s))) ==>
      forall a :: a in p && Conflicts(c, x, Eval(a, s)) ==> TagOf(c, Eval(a, s)) in Since(c, x, Values(p, s))
  {
    hide Since, Conflicts, Reloads, Eval, TagOf;
    var xs := Values(p, s);
    SinceMembers(c, x, xs);
    forall y | y in Since(c, x, xs)
      ensures exists a :: a in p && Conflicts(c, x, Eval(a, s)) && TagOf(c, Eval(a, s)) == y
    {
      var j :| 0 <= j < |xs| && Conflicts(c, x, xs[j]) && TagOf(c, xs[j]) == y;
      assert p[j] in p;
    }
    if forall a :: a in p ==> !Reloads(c, x, Eval(a, s)) {
      NoReloadElems(c, x, p, s);
      forall a | a in p && Conflicts(c, x, Eval(a, s))
        ensures TagOf(c, Eval(a, s)) in Since(c, x, xs)
      {
        var j :| 0 <= j < |p| && p[j] == a;
        assert xs[j] == Eval(a, s);
      }
    }
  }

  /** As many lines as ways in `p` make as many in `q`. */
  lemma {:induction false} CoveredLines(c: Config, x: nat, t: Addr, p: seq<Addr>, q: seq<Addr>, s: Assignment)
    requires c.line > 0 && c.sets > 0 && Reloads(c, x, Eval(t, s)) && Covered(c.ways, p, q)
    requires |Since(c, x, Values(p, s))| >= c.ways
    ensures |Since(c, x, Values(q, s))| >= c.ways
  {
    hide Since, Conflicts, Reloads, Eval, TagOf, Values, After;
    var v := LastReload(c, x, t, q, s);
    AfterLastReload(c, x, t, q, s);
    SinceAfterUse(c, x, v, p, s);
    SinceAfterUse(c, x, v, q, s);
    CountIsDistance(c, x, Values(After(v, p), s));
    CountBound(c, x, Values(After(v, p), s));
    assert CoveredAt(c.ways, p, q, v);
    SinceOfElems(c, x, After(v, p), s);
    SinceOfElems(c, x, After(v, q), s);
    SubsetSize(Since(c, x, Values(p, s)), Since(c, x, Values(q, s)));
  }

  /** With one set and one way only the last access counts. */
  lemma {:induction false} OneLine(c: Config, x: nat, p: seq<Addr>, s: Assignment)
    requires c.line > 0 && c.sets == 1
    ensures |Since(c, x, Values(p, s))| >= 1 <==> p != [] && !Reloads(c, x, Eval(p[|p| - 1], s))
  {
    hide Since, TagOf, Eval;
    if p == [] {
      SinceNone(c, x);
      assert Values(p, s) == [];
    } else {
      var front, a := p[..|p| - 1], p[|p| - 1];
      assert p == front + [a];
      ValuesConcat(front, [a], s);
      assert Values([a], s) == [Eval(a, s)];
      SinceAppend(c, x, Values(front, s), Eval(a, s));
      if !Reloads(c, x, Eval(a, s)) {
        assert TagOf(c, Eval(a, s)) in Since(c, x, Values(p, s));
      }
    }
  }

  lemma {:induction false} SinceNone(c: Config, x: nat)
    requires c.line > 0 && c.sets > 0
    ensures Since(c, x, []) == {}
  {
  }

  lemma {:induction false} ValuesConcat(p: seq<Addr>, q: seq<Addr>, s: Assignment)
    ensures Values(p + q, s) == Values(p, s) + Values(q, s)
  {
    hide Eval;
  }

  function Below(n: nat): (r: set<nat>)
    ensures |r| == n && forall i: nat :: i in r <==> i < n
  {
    if n == 0 then {} else Below(n - 1) + {n - 1}
  }

  /** All other lines of a set are fewer than its lines. */
  lemma {:induction false} SinceFits(c: Config, x: nat, p: seq<Addr>, s: Assignment)
    requires c.line > 0 && c.sets > 0 && x < W64
    ensures |Since(c, x, Values(p, s))| < Tags(c)
  {
    SinceOfElems(c, x, p, s);
    var lines, all := Since(c, x, Values(p, s)), Below(Tags(c));
    TagFits(c, x);
    forall y | y in lines
      ensures y in all - {TagOf(c, x)}
    {
      var a :| a in p && Conflicts(c, x, Eval(a, s)) && TagOf(c, Eval(a, s)) == y;
      TagFits(c, Eval(a, s));
    }
    SubsetSize(lines, all - {TagOf(c, x)});
  }

  lemma {:induction false} TagFits(c: Config, x: nat)
    requires c.line > 0 && c.sets > 0 && x < W64
    ensures TagOf(c, x) < Tags(c)
  {
    DivMonotone(x, W64 - 1, c.line);
    DivMonotone(x / c.line, (W64 - 1) / c.line, c.sets);
  }

  lemma {:induction false} DivMonotone(x: nat, y: nat, m: nat)
    requires x <= y && m > 0
    ensures x / m <= y / m
  {
    if x / m > y / m {
      MulBound(m, y / m + 1, x / m);
      assert false;
    }
  }

  lemma {:induction false} HarmlessLines(c: Config, t: Addr, tr: seq<Addr>, s: Assignment)
    requires c.line > 0 && c.sets > 0 && Harmless(c, t, tr)
    ensures var x, p, q := Eval(t, s), Values(After(t, KeepFirst(tr)), s), Values(After(t, KeepLast(tr)), s);
      |Since(c, x, p)| < c.ways <==> |Since(c, x, q)| < c.ways
  {
    hide Since, Values, After, KeepFirst, KeepLast, Eval, Reloads, Covered, TagOf, Tags;
    var x, p, q := Eval(t, s), After(t, KeepFirst(tr)), After(t, KeepLast(tr));
    SelfReloads(c, x);
    if c.ways >= Tags(c) {
      SinceFits(c, x, p, s);
      SinceFits(c, x, q, s);
    } else if c.sets == 1 && c.ways == 1 {
      OneLine(c, x, p, s);
      OneLine(c, x, q, s);
    } else if |Since(c, x, Values(p, s))| >= c.ways {
      CoveredLines(c, x, t, p, q, s);
    } else if |Since(c, x, Values(q, s))| >= c.ways {
      CoveredLines(c, x, t, q, p, s);
    }
  }

  /** The formula is exact on harmless traces, with constants in them or not. */
  lemma {:induction false} ExactIfHarmless(c: Config, t: Addr, tr: seq<Addr>)
    requires ValidConfig(c) && |tr| < W32 && Harmless(c, t, tr)
    ensures Exact(c, t, tr)
  {
    hide Verdict, Cached, KeepFirst, KeepLast, Since, After, Harmless;
    forall cache: Cache, s: Assignment | WellFormed(c, cache)
      ensures Verdict(c, t, tr, s) <==> Cached(c, cache, t, tr, s)
    {
      Sides(c, cache, t, tr, s);
      SinceAfterTarget(c, t, KeepFirst(tr), s);
      SinceAfterTarget(c, t, KeepLast(tr), s);
      HarmlessLines(c, t, tr, s);
    }
  }

  // --- Lines to assign ------------------------------------------------------------------------------------

  /** The sets and lines divide the address space. */
  lemma {:induction false} TagsExact(c: Config)
    requires ValidConfig(c)
    ensures c.line * (c.sets * Tags(c)) == W64
  {
    hide Pow2, Log2;
    var i, j := Log2(c.line), Log2(c.sets);
    SmallLog(i);
    SmallLog(j);
    var m := Pow2(64 - i - j);
    Pow2Add(j, 64 - i - j);
    Pow2Add(i, 64 - i);
    Pow2Literals();
    LastTag(c.line, c.sets, m);
  }

  lemma {:induction false} LastTag(line: nat, sets: nat, m: nat)
    requires line > 0 && sets > 0 && line * (sets * m) == W64
    ensures (W64 - 1) / line / sets == m - 1
  {
    assert line * (sets * m - 1) == line * (sets * m) - line;
    QuotientIs(W64 - 1, line, sets * m - 1, line - 1);
    assert sets * (m - 1) == sets * m - sets;
    QuotientIs(sets * m - 1, sets, m - 1, sets - 1);
  }

  lemma {:induction false} SmallLog(i: nat)
    requires Pow2(i) < 0x8000_0000
    ensures i < 31
  {
    Pow2Literals();
    Pow2Add(16, 15);
    assert Pow2(15) == 0x8000;
    if i >= 31 {
      Pow2Add(31, i - 31);
      MulBound(Pow2(31), 1, Pow2(i - 31));
      assert false;
    }
  }

  /** The first address of a line. */
  function LineAt(c: Config, k: nat, tag: nat): Word64
    requires ValidConfig(c) && k < c.sets && tag < Tags(c)
  {
    LineFits(c, k, tag);
    c.line * (c.sets * tag + k)
  }

  lemma {:induction false} LineFits(c: Config, k: nat, tag: nat)
    requires ValidConfig(c) && k < c.sets && tag < Tags(c)
    ensures 0 <= c.line * (c.sets * tag + k) < W64
  {
    TagsExact(c);
    MulBound(c.sets, tag + 1, Tags(c));
    assert c.sets * (tag + 1) == c.sets * tag + c.sets;
    assert c.sets * tag >= 0;
    MulBound(c.line, c.sets * tag + k + 1, c.sets * Tags(c));
    assert c.line * (c.sets * tag + k + 1) == c.line * (c.sets * tag + k) + c.line;
  }

  lemma {:induction false} LinePlace(c: Config, k: nat, tag: nat)
    requires ValidConfig(c) && k < c.sets && tag < Tags(c)
    ensures SetOf(c, LineAt(c, k, tag)) == k && TagOf(c, LineAt(c, k, tag)) == tag
  {
    QuotientIs(LineAt(c, k, tag), c.line, c.sets * tag + k, 0);
    QuotientIs(c.sets * tag + k, c.sets, tag, k);
  }

  /** A line of set 0. */
  function Spot(c: Config, tag: nat): Word64
    requires ValidConfig(c) && tag < Tags(c)
  {
    LineAt(c, 0, tag)
  }

  lemma {:induction false} SpotPlace(c: Config, tag: nat)
    requires ValidConfig(c) && tag < Tags(c)
    ensures SetOf(c, Spot(c, tag)) == 0 && TagOf(c, Spot(c, tag)) == tag
  {
    LinePlace(c, 0, tag);
  }

  lemma {:induction false} SomeTags(c: Config)
    requires ValidConfig(c)
    ensures Tags(c) >= 4
  {
    var x := 3 * (c.line * c.sets);
    MulBound(c.line, c.sets, 0x8000_0000);
    MulBound(0x8000_0000, c.line, 0x8000_0000);
    assert x == c.line * (c.sets * 3);
    QuotientIs(x, c.line, c.sets * 3, 0);
    QuotientIs(c.sets * 3, c.sets, 3, 0);
    TagFits(c, x);
  }

  // --- An assignment that tells them apart ----------------------------------------------------------------

  /** The position of `x` in `l` without `a`. */
  function Rank(l: seq<Addr>, a: Addr, x: Addr): nat
    requires x in l
  {
    if l[0] == x then 0 else (if l[0] == a then 0 else 1) + Rank(l[1..], a, x)
  }

  lemma {:induction false} Ranked(l: seq<Addr>, a: Addr, k: nat)
    requires NoRepeats(l) && a in l && k + 1 < |l|
    ensures exists x :: x in l && x != a && Rank(l, a, x) == k
  {
    var m := l[1..];
    assert NoRepeats(m);
    if l[0] == a {
      assert a !in m;
      RankedWithout(m, a, k);
      var x :| x in m && x != a && Rank(m, a, x) == k;
      assert Rank(l, a, x) == k;
    } else if k == 0 {
      assert Rank(l, a, l[0]) == 0;
    } else {
      Ranked(m, a, k - 1);
      var x :| x in m && x != a && Rank(m, a, x) == k - 1;
      assert x != l[0];
      assert Rank(l, a, x) == k;
    }
  }

  lemma {:induction false} RankedWithout(l: seq<Addr>, a: Addr, k: nat)
    requires NoRepeats(l) && a !in l && k < |l|
    ensures exists x :: x in l && x != a && Rank(l, a, x) == k
  {
    if k == 0 {
      assert Rank(l, a, l[0]) == 0;
    } else {
      var m := l[1..];
      assert NoRepeats(m);
      RankedWithout(m, a, k - 1);
      var x :| x in m && x != a && Rank(m, a, x) == k - 1;
      assert x != l[0];
      assert Rank(l, a, x) == k;
    }
  }

  /** The tags other than `g`, in order. */
  function OtherTag(g: nat, i: nat): (r: nat)
    ensures r != g && r <= i + 1
  {
    if i < g then i else i + 1
  }

  function OtherTags(g: nat, n: nat): (r: set<nat>)
    ensures |r| == n && forall i :: 0 <= i < n ==> OtherTag(g, i) in r
    ensures forall y :: y in r ==> exists i :: 0 <= i < n && y == OtherTag(g, i)
  {
    if n == 0 then {} else OtherTags(g, n - 1) + {OtherTag(g, n - 1)}
  }

  /** Another line of the set of `x`. */
  function Beside(c: Config, x: Word64, i: nat): Word64
    requires ValidConfig(c) && i + 1 < Tags(c)
  {
    LineAt(c, SetOf(c, x), OtherTag(TagOf(c, x), i))
  }

  /** A line of another set, if there is one. */
  function Away(c: Config, x: Word64): Word64
    requires ValidConfig(c)
  {
    SomeTags(c);
    if SetOf(c, x) + 1 < c.sets then LineAt(c, SetOf(c, x) + 1, 0) else LineAt(c, 0, 0)
  }

  /** For a target at `x`: `a` gets the first other line of its set, the rest of `l` the next ones, `ways` in all, or with
      one way another set, and everything else the target's own address. */
  function Place(c: Config, x: Word64, l: seq<Addr>, a: Addr, b: Addr): Word64
    requires ValidConfig(c) && c.ways < Tags(c)
  {
    if b == a then Beside(c, x, 0)
    else if b !in l then x
    else if c.ways == 1 then Away(c, x)
    else Beside(c, x, 1 + Min(Rank(l, a, b), c.ways - 2))
  }

  function Min(a: nat, b: nat): nat { if a < b then a else b }

  ghost function Apart(c: Config, x: Word64, l: seq<Addr>, a: Addr): Assignment
    requires ValidConfig(c) && c.ways < Tags(c)
  {
    (id: nat) => Place(c, x, l, a, Sym(id))
  }

  /** How the target's line sees the places. */
  lemma {:induction false} PlaceLine(c: Config, x: Word64, l: seq<Addr>, a: Addr, b: Addr)
    requires ValidConfig(c) && c.ways < Tags(c) && (c.ways == 1 ==> c.sets > 1 || l == [a]) && a in l
    ensures Reloads(c, x, Place(c, x, l, a, b)) <==> b !in l
    ensures Conflicts(c, x, Place(c, x, l, a, b)) <==> b == a || (b in l && c.ways > 1)
    ensures b == a ==> TagOf(c, Place(c, x, l, a, b)) == OtherTag(TagOf(c, x), 0)
    ensures b in l && b != a && c.ways > 1 ==>
      TagOf(c, Place(c, x, l, a, b)) == OtherTag(TagOf(c, x), 1 + Min(Rank(l, a, b), c.ways - 2))
  {
    hide LineAt, SetOf, TagOf, Rank, OtherTag, Tags;
    SomeTags(c);
    var k, g := SetOf(c, x), TagOf(c, x);
    if b == a {
      LinePlace(c, k, OtherTag(g, 0));
    } else if b in l {
      if c.ways == 1 {
        LinePlace(c, if k + 1 < c.sets then k + 1 else 0, 0);
      } else {
        LinePlace(c, k, OtherTag(g, 1 + Min(Rank(l, a, b), c.ways - 2)));
      }
    }
  }

  predicate Symbolic(p: seq<Addr>)
  {
    forall a :: a in p ==> a.Sym?
  }

  ghost predicate Placed(c: Config, x: Word64, l: seq<Addr>, a: Addr, s: Assignment)
    requires ValidConfig(c) && c.ways < Tags(c)
  {
    forall b: Addr :: b.Sym? ==> Eval(b, s) == Place(c, x, l, a, b)
  }

  /** Where the target is: its own address if it is a constant, any otherwise. */
  function Home(t: Addr): Word64
  {
    if t.Const? then t.value else 0
  }

  lemma {:induction false} AtHome(c: Config, t: Addr, l: seq<Addr>, a: Addr)
    requires ValidConfig(c) && c.ways < Tags(c) && a in l && t !in l
    ensures Placed(c, Home(t), l, a, Apart(c, Home(t), l, a)) && Eval(t, Apart(c, Home(t), l, a)) == Home(t)
  {
  }

  /** Any expression after `u` in `p`, of at least `ways`, that is not after `u` in `q` yields an assignment. */
  lemma {:induction false} Uncovered(c: Config, t: Addr, p: seq<Addr>, q: seq<Addr>, u: Addr, a: Addr)
    requires ValidConfig(c) && c.ways < Tags(c) && (c.ways == 1 ==> c.sets > 1)
    requires NoRepeats(p) && t !in p && (u.Sym? || u == t) && Symbolic(p) && Symbolic(q)
    requires a in After(u, p) && a !in After(u, q) && |After(u, p)| >= c.ways
    ensures var s := Apart(c, Home(t), After(u, p), a);
      && Eval(t, s) == Home(t)
      && |Since(c, Home(t), Values(p, s))| >= c.ways > |Since(c, Home(t), Values(q, s))|
  {
    var l, x := After(u, p), Home(t);
    var s := Apart(c, x, l, a);
    AfterElems(u, p);
    AfterElemsOf(u, q);
    hide Place, Since, Values, After, Reloads, Conflicts, TagOf, Tags, Apart, Rank, NoRepeats;
    AtHome(c, t, l, a);
    PlaceLine(c, x, l, a, u);
    SelfReloads(c, x);
    SinceAfterUse(c, x, u, p, s);
    SinceAfterUse(c, x, u, q, s);
    ManyLines(c, x, l, a, s);
    FewLines(c, x, l, a, After(u, q), s);
  }

  lemma {:induction false} ManyLines(c: Config, x: Word64, l: seq<Addr>, a: Addr, s: Assignment)
    requires ValidConfig(c) && c.ways < Tags(c) && (c.ways == 1 ==> c.sets > 1)
    requires NoRepeats(l) && Symbolic(l) && a in l && |l| >= c.ways && Placed(c, x, l, a, s)
    ensures |Since(c, x, Values(l, s))| >= c.ways
  {
    hide Place, Since, Values, Reloads, Conflicts, TagOf, Tags, Rank, NoRepeats, OtherTag;
    SinceOfElems(c, x, l, s);
    forall b | b in l
      ensures !Reloads(c, x, Eval(b, s))
    {
      PlaceLine(c, x, l, a, b);
    }
    var lines, g := Since(c, x, Values(l, s)), TagOf(c, x);
    forall y | y in OtherTags(g, c.ways)
      ensures y in lines
    {
      var i: nat :| i < c.ways && y == OtherTag(g, i);
      if i == 0 {
        PlaceLine(c, x, l, a, a);
      } else {
        Ranked(l, a, i - 1);
        var b :| b in l && b != a && Rank(l, a, b) == i - 1;
        PlaceLine(c, x, l, a, b);
      }
    }
    SubsetSize(OtherTags(g, c.ways), lines);
  }

  lemma {:induction false} FewLines(c: Config, x: Word64, l: seq<Addr>, a: Addr, r: seq<Addr>, s: Assignment)
    requires ValidConfig(c) && c.ways < Tags(c) && (c.ways == 1 ==> c.sets > 1)
    requires Symbolic(r) && a in l && a !in r && Placed(c, x, l, a, s)
    ensures |Since(c, x, Values(r, s))| < c.ways
  {
    hide Place, Since, Values, Reloads, Conflicts, TagOf, Tags, Rank;
    SinceOfElems(c, x, r, s);
    var lines, g := Since(c, x, Values(r, s)), TagOf(c, x);
    var rest := OtherTags(g, c.ways) - {OtherTag(g, 0)};
    forall y | y in lines
      ensures y in rest
    {
      var b :| b in r && Conflicts(c, x, Eval(b, s)) && TagOf(c, Eval(b, s)) == y;
      PlaceLine(c, x, l, a, b);
    }
    SubsetSize(lines, rest);
  }

  /** With one set and one way: a last access of `p` that is not the last of `q`. */
  lemma {:induction false} LastDiffers(c: Config, t: Addr, p: seq<Addr>, q: seq<Addr>)
    requires ValidConfig(c) && c.sets == 1 && c.ways == 1 && c.ways < Tags(c)
    requires t !in p && Symbolic(p) && Symbolic(q)
    requires p != [] && (q == [] || q[|q| - 1] != p[|p| - 1])
    ensures var s := Apart(c, Home(t), [p[|p| - 1]], p[|p| - 1]);
      && Eval(t, s) == Home(t)
      && |Since(c, Home(t), Values(p, s))| >= c.ways > |Since(c, Home(t), Values(q, s))|
  {
    var a, x := p[|p| - 1], Home(t);
    var l := [a];
    var s := Apart(c, x, l, a);
    assert a in p && (q != [] ==> q[|q| - 1] in q);
    hide Place, Since, Values, Reloads, Conflicts, TagOf, Tags, Apart, Rank;
    AtHome(c, t, l, a);
    PlaceLine(c, x, l, a, a);
    OneLine(c, x, p, s);
    OneLine(c, x, q, s);
    if q != [] {
      PlaceLine(c, x, l, a, q[|q| - 1]);
    }
  }

  // --- The theorem -----------------------------------------------------------------------------------

  lemma {:induction false} NotInFront(p: seq<Addr>, x: Addr)
    requires NoRepeats(p + [x])
    ensures x !in p && NoRepeats(p)
  {
    var l := p + [x];
    assert forall i :: 0 <= i < |p| ==> l[i] == p[i] && l[i] != l[|p|];
  }

  lemma {:induction false} AfterElems(t: Addr, p: seq<Addr>)
    requires NoRepeats(p)
    ensures NoRepeats(After(t, p)) && t !in After(t, p) && forall a :: a in After(t, p) ==> a in p
  {
    if p != [] && p[|p| - 1] != t {
      var front, a := p[..|p| - 1], p[|p| - 1];
      assert p == front + [a];
      NotInFront(front, a);
      AfterElems(t, front);
    }
  }

  lemma {:induction false} AfterElemsOf(t: Addr, p: seq<Addr>)
    ensures forall a :: a in After(t, p) ==> a in p
  {
    if p != [] && p[|p| - 1] != t {
      AfterElemsOf(t, p[..|p| - 1]);
    }
  }

  lemma {:induction false} AfterAll(t: Addr, p: seq<Addr>)
    requires t !in p
    ensures After(t, p) == p
  {
    if p != [] {
      AfterAll(t, p[..|p| - 1]);
    }
  }

  /** The number of lines tells the formula from the cache. */
  lemma {:induction false} Told(c: Config, t: Addr, tr: seq<Addr>, s: Assignment)
    requires ValidConfig(c) && |tr| < W32
    requires var x, p, q := Eval(t, s), Values(After(t, KeepFirst(tr)), s), Values(After(t, KeepLast(tr)), s);
      !(|Since(c, x, p)| < c.ways <==> |Since(c, x, q)| < c.ways)
    ensures !Exact(c, t, tr)
  {
    hide KeepFirst, KeepLast, Since, Verdict, Cached, After;
    var cache: Cache := seq(c.sets, _ => []);
    Sides(c, cache, t, tr, s);
    SinceAfterTarget(c, t, KeepFirst(tr), s);
    SinceAfterTarget(c, t, KeepLast(tr), s);
    assert WellFormed(c, cache) && !(Verdict(c, t, tr, s) <==> Cached(c, cache, t, tr, s));
  }

  lemma {:induction false} HarmfulAt(c: Config, t: Addr, p: seq<Addr>, q: seq<Addr>, u: Addr) returns (s: Assignment)
    requires ValidConfig(c) && c.ways < Tags(c) && (c.ways == 1 ==> c.sets > 1)
    requires NoRepeats(p) && t !in p && t !in q && Symbolic(p) && Symbolic(q) && !CoveredAt(c.ways, p, q, u)
    ensures |Since(c, Eval(t, s), Values(p, s))| >= c.ways > |Since(c, Eval(t, s), Values(q, s))|
  {
    SomeTags(c);
    var v := if u in p || u in q then u else t;
    if v == t {
      AfterAll(u, p);
      AfterAll(u, q);
      AfterAll(t, p);
      AfterAll(t, q);
    }
    var a :| a in After(v, p) && a !in After(v, q);
    hide After, Since, Values, NoRepeats, Tags, Apart;
    Uncovered(c, t, p, q, v, a);
    s := Apart(c, Home(t), After(v, p), a);
  }

  lemma {:induction false} Harmful(c: Config, t: Addr, p: seq<Addr>, q: seq<Addr>) returns (s: Assignment)
    requires ValidConfig(c) && c.ways < Tags(c) && NoRepeats(p) && NoRepeats(q)
    requires t !in p && t !in q && Symbolic(p) && Symbolic(q)
    requires if c.sets == 1 && c.ways == 1 then !SameLast(p, q) else !(Covered(c.ways, p, q) && Covered(c.ways, q, p))
    ensures !(|Since(c, Eval(t, s), Values(p, s))| < c.ways <==> |Since(c, Eval(t, s), Values(q, s))| < c.ways)
  {
    SomeTags(c);
    hide After, Since, Values, NoRepeats, Tags, Apart, CoveredAt;
    if c.sets == 1 && c.ways == 1 {
      if p != [] {
        LastDiffers(c, t, p, q);
        s := Apart(c, Home(t), [p[|p| - 1]], p[|p| - 1]);
      } else {
        LastDiffers(c, t, q, p);
        s := Apart(c, Home(t), [q[|q| - 1]], q[|q| - 1]);
      }
    } else if !Covered(c.ways, p, q) {
      var u: Addr :| !CoveredAt(c.ways, p, q, u);
      s := HarmfulAt(c, t, p, q, u);
    } else {
      var u: Addr :| !CoveredAt(c.ways, q, p, u);
      s := HarmfulAt(c, t, q, p, u);
    }
  }

  /** For every target and symbolic traces the formula is exact under all assignments exactly when the repeats are
      harmless for the configured number of ways. */
  lemma {:induction false} ExactOnlyIfHarmless(c: Config, t: Addr, tr: seq<Addr>)
    requires ValidConfig(c) && |tr| < W32 && Symbolic(tr)
    ensures Exact(c, t, tr) <==> Harmless(c, t, tr)
  {
    if Harmless(c, t, tr) {
      ExactIfHarmless(c, t, tr);
    } else {
      var p, q := After(t, KeepFirst(tr)), After(t, KeepLast(tr));
      KeepFirstElems(tr);
      KeepLastElems(tr);
      AfterElems(t, KeepFirst(tr));
      AfterElems(t, KeepLast(tr));
      hide Exact, After, KeepFirst, KeepLast, Since, Values, Tags, NoRepeats, Covered;
      var s := Harmful(c, t, p, q);
      Told(c, t, tr, s);
    }
  }

  /** An expression used again after others: the formula is exact exactly when these are fewer than the ways. */
  lemma {:induction false} UsedAgain(c: Config, t: Addr, a: Addr, bs: seq<Addr>)
    requires ValidConfig(c) && |bs| + 2 < W32 && c.ways < Tags(c)
    requires Symbolic([a] + bs) && NoRepeats([t, a] + bs)
    ensures Exact(c, t, [a] + bs + [a]) <==> |bs| < c.ways
  {
    var tr := [a] + bs + [a];
    hide Exact, After, KeepFirst, KeepLast, Tags, NoRepeats, Covered;
    AllDistinct(t, a, bs);
    assert Symbolic(tr) by { assert Symbolic([a] + bs); }
    ExactOnlyIfHarmless(c, t, tr);
    AgainSequences(t, a, bs);
    var p, q := [a] + bs, bs + [a];
    if |bs| < c.ways {
      AgainCovered(c.ways, p, q);
      AgainCovered(c.ways, q, p);
    } else if c.sets == 1 && c.ways == 1 {
      assert p[|p| - 1] == bs[|bs| - 1] != a;
    } else {
      AgainUncovered(c.ways, a, bs);
    }
  }

  lemma {:induction false} AllDistinct(t: Addr, a: Addr, bs: seq<Addr>)
    requires NoRepeats([t, a] + bs)
    ensures t != a && t !in bs && a !in bs && NoRepeats(bs)
  {
    var all := [t, a] + bs;
    assert all[0] == t && all[1] == a && forall i :: 0 <= i < |bs| ==> all[i + 2] == bs[i];
  }

  lemma {:induction false} AgainSequences(t: Addr, a: Addr, bs: seq<Addr>)
    requires t != a && t !in bs && a !in bs && NoRepeats(bs)
    ensures var tr := [a] + bs + [a]; After(t, KeepFirst(tr)) == [a] + bs && After(t, KeepLast(tr)) == bs + [a]
  {
    var p, q := [a] + bs, bs + [a];
    assert [a] + bs + [a] == p + [a] && [a] + bs + [a] == [a] + q;
    SkipsLast(p, a);
    SkipsFirst(a, q);
    DistinctAround(a, bs);
    hide KeepFirst, KeepLast, After, NoRepeats;
    KeepAll(p);
    KeepAllLast(q);
    AfterAll(t, p);
    AfterAll(t, q);
  }

  lemma {:induction false} SkipsLast(p: seq<Addr>, a: Addr)
    requires a in p
    ensures KeepFirst(p + [a]) == KeepFirst(p)
  {
    assert (p + [a])[..|p|] == p;
  }

  lemma {:induction false} SkipsFirst(a: Addr, q: seq<Addr>)
    requires a in q
    ensures KeepLast([a] + q) == KeepLast(q)
  {
    assert ([a] + q)[1..] == q;
  }

  lemma {:induction false} DistinctAround(a: Addr, bs: seq<Addr>)
    requires a !in bs && NoRepeats(bs)
    ensures NoRepeats([a] + bs) && NoRepeats(bs + [a])
  {
  }

  lemma {:induction false} AgainCovered(ways: nat, p: seq<Addr>, q: seq<Addr>)
    requires |p| <= ways && forall a :: a in p <==> a in q
    ensures Covered(ways, p, q)
  {
    forall u: Addr
      ensures CoveredAt(ways, p, q, u)
    {
      if u in p {
        AfterShorter(u, p);
      } else {
        AfterAll(u, p);
        AfterAll(u, q);
      }
    }
  }

  lemma {:induction false} AfterShorter(u: Addr, p: seq<Addr>)
    ensures |After(u, p)| <= |p| && (u in p ==> |After(u, p)| < |p|)
  {
    if p != [] && p[|p| - 1] != u {
      AfterShorter(u, p[..|p| - 1]);
    }
  }

  lemma {:induction false} AgainUncovered(ways: nat, a: Addr, bs: seq<Addr>)
    requires a !in bs && |bs| >= ways > 0
    ensures !Covered(ways, [a] + bs, bs + [a])
  {
    AfterFirst(a, bs);
    assert After(a, bs + [a]) == [];
    assert bs[0] in bs;
    assert !CoveredAt(ways, [a] + bs, bs + [a], a);
  }

  lemma {:induction false} AfterFirst(a: Addr, bs: seq<Addr>)
    requires a !in bs
    ensures After(a, [a] + bs) == bs
  {
    if bs != [] {
      var front := bs[..|bs| - 1];
      AfterFirst(a, front);
      assert ([a] + bs)[..|bs|] == [a] + front;
    }
  }
}
