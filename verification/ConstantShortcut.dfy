/** The constant-eviction shortcut of handleAccess: when it is right, and runs in which it is wrong. */
module ConstantShortcut {
  import opened Words
  import opened CacheLines
  import opened CacheUtil
  import opened Lru
  import opened CacheTrace
  import opened CacheRepeats
  import opened ConstantCache

  /** The formula says evicted, and so does every run of the cache. */
  ghost predicate NeverCached(c: Config, t: Addr, tr: seq<Addr>, s: Assignment)
    requires c.line > 0 && c.sets > 0
  {
    && !Verdict(c, t, tr, s)
    && forall cache | WellFormed(c, cache) :: !Cached(c, cache, t, tr, s)
  }

  /** What the constant-eviction shortcut is worth: it needs all sets of the recorder; it is right under an assignment
      exactly when as many other lines as ways came since the target's last reload, in particular when nothing reloaded
      it; and for a symbolic target some assignment makes it wrong. */
  ghost predicate ShortcutMeans(c: Config, t: Addr, tr: seq<Addr>)
    requires c.line > 0 && c.sets > 0
  {
    && c.sets == CACHE_SET_SIZE
    && (forall s: Assignment :: IsEvicted(c, t, tr, s) <==> |Since(c, Eval(t, s), Values(tr, s))| >= c.ways)
    && (forall s: Assignment :: StaysCached(c, t, tr, s) <==> |Since(c, Eval(t, s), Values(tr, s))| < c.ways)
    && (|tr| < W32 ==> forall s: Assignment | NoReload(c, Eval(t, s), Values(tr, s)) :: NeverCached(c, t, tr, s))
    && (t.Sym? ==> exists s: Assignment :: StaysCached(c, t, tr, s))
  }

  lemma {:induction false} Shortcut(c: Config, t: Addr, tr: seq<Addr>, a: Addr)
    requires ValidConfig(c) && c.sets <= CACHE_SET_SIZE && !Full(c, tr) && Full(c, tr + [a])
    ensures ShortcutMeans(c, t, tr + [a])
  {
    hide Full, IsEvicted, StaysCached, Since, Values, Eval, NoReload, Verdict, Cached, WellFormed;
    FullUsesAll(c, tr + [a]);
    FilledByConstant(c, tr, a);
    forall s: Assignment
      ensures IsEvicted(c, t, tr + [a], s) <==> |Since(c, Eval(t, s), Values(tr + [a], s))| >= c.ways
      ensures StaysCached(c, t, tr + [a], s) <==> |Since(c, Eval(t, s), Values(tr + [a], s))| < c.ways
    {
      EvictionExact(c, t, tr + [a], s);
    }
    if |tr + [a]| < W32 {
      forall s: Assignment | NoReload(c, Eval(t, s), Values(tr + [a], s))
        ensures NeverCached(c, t, tr + [a], s)
      {
        FullMeansEvicted(c, t, tr + [a], s);
      }
    }
    if t.Sym? {
      SymbolicShortcutWrong(c, t, tr, a);
    }
  }

  // --- A trace that fills the recorder -----------------------------------------------------------------

  /** `ways` lines of every set, the first line of set 0 last. */
  function Filling(c: Config): (tr: seq<Addr>)
    requires ValidConfig(c) && c.ways < Tags(c)
    ensures |tr| == c.sets * c.ways
  {
    var n := c.sets * c.ways;
    seq(n, i requires 0 <= i < n => FillingAt(c, n - 1 - i))
  }

  function FillingAt(c: Config, j: nat): Addr
    requires ValidConfig(c) && c.ways < Tags(c) && j < c.sets * c.ways
  {
    FillingSet(c, j);
    Const(LineAt(c, j / c.ways, j % c.ways))
  }

  lemma {:induction false} FillingSet(c: Config, j: nat)
    requires c.ways > 0 && j < c.sets * c.ways
    ensures j / c.ways < c.sets
  {
    if j / c.ways >= c.sets {
      MulBound(c.ways, c.sets, j / c.ways);
      assert false;
    }
  }

  /** In the trace comes line `g` of set `k` for every `g` below the ways, before the last access unless both are 0. */
  lemma {:induction false} FillingHas(c: Config, k: nat, g: nat)
    requires ValidConfig(c) && c.ways < Tags(c) && k < c.sets && g < c.ways
    ensures Const(LineAt(c, k, g)) in Filling(c)
  {
    var n, j := c.sets * c.ways, c.ways * k + g;
    MulBound(c.ways, k + 1, c.sets);
    assert c.ways * (k + 1) == c.ways * k + c.ways && c.ways * k >= 0;
    QuotientIs(j, c.ways, k, g);
    assert FillingAt(c, j) == Const(LineAt(c, k, g));
    assert Filling(c)[n - 1 - j] == FillingAt(c, j);
  }

  lemma {:induction false} FillingFull(c: Config)
    requires ValidConfig(c) && c.sets == CACHE_SET_SIZE && c.ways < Tags(c)
    ensures Full(c, Filling(c))
  {
    hide SetOf, TagOf, LineAt, Tags, Filling;
    forall k | 0 <= k < CACHE_SET_SIZE
      ensures |ConstantTags(c, Filling(c), k)| >= c.ways
    {
      forall g | g in Below(c.ways)
        ensures g in ConstantTags(c, Filling(c), k)
      {
        FillingHas(c, k, g);
        LinePlace(c, k, g);
      }
      SubsetSize(Below(c.ways), ConstantTags(c, Filling(c), k));
    }
  }

  /** Without the last access set 0 lacks its first line. */
  lemma {:induction false} FillingFrontNotFull(c: Config)
    requires ValidConfig(c) && c.sets == CACHE_SET_SIZE && c.ways < Tags(c)
    ensures |Filling(c)| > 0 && !Full(c, Filling(c)[..|Filling(c)| - 1])
  {
    var n := c.sets * c.ways;
    MulBound(c.sets, 1, c.ways);
    var front := Filling(c)[..n - 1];
    var tags := ConstantTags(c, front, 0);
    forall g | g in tags
      ensures g in Below(c.ways) - {0}
    {
      var a :| a in front && a.Const? && SetOf(c, a.value) == 0 && TagOf(c, a.value) == g;
      var i :| 0 <= i < n - 1 && front[i] == a;
      FillingOther(c, n - 1 - i);
    }
    SubsetSize(tags, Below(c.ways) - {0});
  }

  lemma {:induction false} FillingOther(c: Config, j: nat)
    requires ValidConfig(c) && c.ways < Tags(c) && 0 < j < c.sets * c.ways
    ensures SetOf(c, FillingAt(c, j).value) == 0 ==> 0 < TagOf(c, FillingAt(c, j).value) < c.ways
  {
    FillingSet(c, j);
    LinePlace(c, j / c.ways, j % c.ways);
  }

  /** A constant target for which the shortcut is wrong under every assignment: the target's own line is the last that
      the recorder was waiting for. */
  lemma {:induction false} ConstantShortcutWrong(c: Config)
    requires ValidConfig(c) && c.sets == CACHE_SET_SIZE && c.ways < Tags(c)
    ensures |Filling(c)| > 0 && Full(c, Filling(c)) && !Full(c, Filling(c)[..|Filling(c)| - 1])
    ensures forall s: Assignment :: StaysCached(c, Const(0), Filling(c), s)
  {
    FillingFull(c);
    FillingFrontNotFull(c);
    var tr := Filling(c);
    assert tr == tr[..|tr| - 1] + [tr[|tr| - 1]];
    assert FillingAt(c, 0) == Const(0);
    forall s: Assignment
      ensures StaysCached(c, Const(0), tr, s)
    {
      SelfReloads(c, 0);
      ReloadDefeatsShortcut(c, Const(0), tr[..|tr| - 1], Const(0), s);
    }
  }
}
