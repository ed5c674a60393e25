/** ConstantCache of CacheState.cpp: for each set the distinct constant tags seen,
    up to the number of ways, and a count of the sets not yet full. */
module ConstantCache {
  import opened Words
  import opened CacheLines
  import opened CacheUtil
  import opened Lru
  import opened CacheTrace

  const CACHE_SET_SIZE: nat := 256

  /** Indices of the sets with fewer than `ways` recorded tags. */
  function NotFull(state: seq<set<nat>>, ways: nat): set<nat>
  {
    set k: nat | k < |state| && |state[k]| < ways
  }

  /** The tags of the constants of a trace that fall in set `k`. */
  function ConstantTags(c: Config, tr: seq<Addr>, k: nat): set<nat>
    requires c.line > 0 && c.sets > 0
  {
    set a | a in tr && a.Const? && SetOf(c, a.value) == k :: TagOf(c, a.value)
  }

  /** Every set has constants in as many lines as there are ways. */
  predicate Full(c: Config, tr: seq<Addr>)
    requires c.line > 0 && c.sets > 0
  {
    forall k :: 0 <= k < CACHE_SET_SIZE ==> |ConstantTags(c, tr, k)| >= c.ways
  }

  /** The recorder holds the tags of the constants, and stops at the number of ways. */
  ghost predicate FromTrace(c: Config, state: seq<set<nat>>, tr: seq<Addr>)
    requires c.line > 0 && c.sets > 0
  {
    forall k :: 0 <= k < |state| ==> Keeps(c, state[k], tr, k)
  }

  predicate Keeps(c: Config, tags: set<nat>, tr: seq<Addr>, k: nat)
    requires c.line > 0 && c.sets > 0
  {
    tags <= ConstantTags(c, tr, k) && |tags| <= c.ways && (|tags| < c.ways ==> tags == ConstantTags(c, tr, k))
  }

  class Recorder {
    const cfg: Config
    var fullCount: int
    var ccState: seq<set<nat>>
    ghost var trace: seq<Addr>

    ghost predicate Valid()
      reads this
    {
      && ValidConfig(cfg) && cfg.sets <= CACHE_SET_SIZE
      && |ccState| == CACHE_SET_SIZE
      && fullCount == |NotFull(ccState, cfg.ways)|
      && FromTrace(cfg, ccState, trace)
    }

    constructor (cfg: Config)
      requires ValidConfig(cfg) && cfg.sets <= CACHE_SET_SIZE
      ensures Valid() && this.cfg == cfg && trace == [] && !IsFull()
    {
      this.cfg := cfg;
      fullCount := CACHE_SET_SIZE;
      ccState := seq(CACHE_SET_SIZE, _ => {});
      trace := [];
      new;
      AllNotFull(ccState, cfg.ways);
      assert forall k :: ConstantTags(cfg, [], k) == {};
    }

    /** ConstantCache::access */
    method Access(a: Addr)
      requires Valid()
      modifies this
      ensures Valid() && trace == old(trace) + [a]
      ensures a.Sym? ==> ccState == old(ccState)
      ensures a.Const? ==>
        var k := SetOf(cfg, a.value);
        ccState == (if |old(ccState)[k]| >= cfg.ways then old(ccState)
                    else old(ccState)[k := old(ccState)[k] + {TagOf(cfg, a.value)}])
    {
      hide SetOf, TagOf, FromTrace, NotFull;
      trace := trace + [a];
      if a.Sym? {
        SameTags(cfg, ccState, old(trace), a);
        return;
      }
      var k, g := SetOf(cfg, a.value), TagOf(cfg, a.value);
      TagRecorded(cfg, ccState, old(trace), a);
      if |ccState[k]| >= cfg.ways {
        return;
      }
      if g !in ccState[k] {
        ghost var before := ccState;
        ccState := ccState[k := ccState[k] + {g}];
        FillOne(before, k, g, cfg.ways);
        if |ccState[k]| == cfg.ways {
          fullCount := fullCount - 1;
        }
      } else {
        assert ccState[k] + {g} == ccState[k];
        assert ccState[k := ccState[k] + {g}] == ccState;
      }
    }

    predicate IsFull()
      reads this
    {
      fullCount == 0
    }
  }

  lemma {:induction false} AllNotFull(state: seq<set<nat>>, ways: nat)
    requires ways > 0 && forall k :: 0 <= k < |state| ==> state[k] == {}
    ensures |NotFull(state, ways)| == |state|
  {
    if state != [] {
      var n := |state| - 1;
      AllNotFull(state[..n], ways);
      assert NotFull(state, ways) == NotFull(state[..n], ways) + {n};
    }
  }

  /** Recording one tag makes at most its own set full. */
  lemma {:induction false} FillOne(state: seq<set<nat>>, k: nat, g: nat, ways: nat)
    requires k < |state| && |state[k]| < ways && g !in state[k]
    ensures var state' := state[k := state[k] + {g}];
            |state'[k]| <= ways
            && |NotFull(state', ways)| == |NotFull(state, ways)| - (if |state'[k]| == ways then 1 else 0)
  {
    var state' := state[k := state[k] + {g}];
    assert |state'[k]| == |state[k]| + 1;
    if |state'[k]| == ways {
      assert NotFull(state', ways) == NotFull(state, ways) - {k};
    } else {
      assert NotFull(state', ways) == NotFull(state, ways);
    }
  }

  /** One more access adds the tag of a constant to its own set. */
  lemma {:induction false} TagsAppend(c: Config, tr: seq<Addr>, a: Addr, k: nat)
    requires c.line > 0 && c.sets > 0
    ensures ConstantTags(c, tr + [a], k) ==
      ConstantTags(c, tr, k) + (if a.Const? && SetOf(c, a.value) == k then {TagOf(c, a.value)} else {})
  {
    hide SetOf, TagOf;
    assert forall b :: b in tr + [a] <==> b in tr || b == a;
  }

  lemma {:induction false} SameTags(c: Config, state: seq<set<nat>>, tr: seq<Addr>, a: Addr)
    requires c.line > 0 && c.sets > 0 && FromTrace(c, state, tr) && a.Sym?
    ensures FromTrace(c, state, tr + [a])
  {
    hide ConstantTags;
    forall k | 0 <= k < |state|
      ensures Keeps(c, state[k], tr + [a], k)
    {
      assert Keeps(c, state[k], tr, k);
      TagsAppend(c, tr, a, k);
    }
  }

  lemma {:induction false} TagRecorded(c: Config, state: seq<set<nat>>, tr: seq<Addr>, a: Addr)
    requires c.line > 0 && c.sets > 0 && FromTrace(c, state, tr) && a.Const? && SetOf(c, a.value) < |state|
    ensures var k := SetOf(c, a.value);
      FromTrace(c, if |state[k]| >= c.ways then state else state[k := state[k] + {TagOf(c, a.value)}], tr + [a])
  {
    hide ConstantTags, SetOf, TagOf;
    var k, g := SetOf(c, a.value), TagOf(c, a.value);
    var state' := if |state[k]| >= c.ways then state else state[k := state[k] + {g}];
    forall j | 0 <= j < |state'|
      ensures Keeps(c, state'[j], tr + [a], j)
    {
      assert Keeps(c, state[j], tr, j);
      TagsAppend(c, tr, a, j);
      if j == k && |state[k]| < c.ways {
        assert g in state[k] ==> state[k] + {g} == state[k];
      }
    }
  }

  lemma {:induction false} FullMore(c: Config, tr: seq<Addr>, a: Addr)
    requires c.line > 0 && c.sets > 0 && Full(c, tr)
    ensures Full(c, tr + [a])
  {
    hide ConstantTags;
    forall k | 0 <= k < CACHE_SET_SIZE
      ensures |ConstantTags(c, tr + [a], k)| >= c.ways
    {
      TagsAppend(c, tr, a, k);
      SubsetSize(ConstantTags(c, tr, k), ConstantTags(c, tr + [a], k));
    }
  }

  lemma {:induction false} NotFullAtStart(c: Config)
    requires c.line > 0 && c.sets > 0 && c.ways > 0
    ensures !Full(c, [])
  {
    assert ConstantTags(c, [], 0) == {};
  }

  lemma {:induction false} FullPrefix(c: Config, tr: seq<Addr>, i: nat)
    requires c.line > 0 && c.sets > 0 && i <= |tr| && Full(c, tr[..i])
    ensures Full(c, tr)
    decreases |tr| - i
  {
    hide Full;
    if i == |tr| {
      assert tr[..i] == tr;
    } else {
      FullMore(c, tr[..i], tr[i]);
      assert tr[..i + 1] == tr[..i] + [tr[i]];
      FullPrefix(c, tr, i + 1);
    }
  }

  /** Only a constant access can make the last set full. */
  lemma {:induction false} FilledByConstant(c: Config, tr: seq<Addr>, a: Addr)
    requires c.line > 0 && c.sets > 0 && !Full(c, tr) && Full(c, tr + [a])
    ensures a.Const?
  {
    hide ConstantTags;
    var k :| 0 <= k < CACHE_SET_SIZE && |ConstantTags(c, tr, k)| < c.ways;
    TagsAppend(c, tr, a, k);
  }

  /** No set is left exactly when the trace has filled them all. */
  lemma {:induction false} FullIs(c: Config, state: seq<set<nat>>, tr: seq<Addr>)
    requires c.line > 0 && c.sets > 0 && |state| == CACHE_SET_SIZE && FromTrace(c, state, tr)
    ensures |NotFull(state, c.ways)| == 0 <==> Full(c, tr)
  {
    hide ConstantTags;
    forall k | 0 <= k < CACHE_SET_SIZE
      ensures k in NotFull(state, c.ways) <==> |ConstantTags(c, tr, k)| < c.ways
    {
      assert Keeps(c, state[k], tr, k);
      SubsetSize(state[k], ConstantTags(c, tr, k));
    }
    if Full(c, tr) {
      assert NotFull(state, c.ways) == {};
    } else {
      var k :| 0 <= k < CACHE_SET_SIZE && |ConstantTags(c, tr, k)| < c.ways;
      assert k in NotFull(state, c.ways);
    }
  }

  /** A set the configuration does not have stays empty, so all sets of the recorder must be used. */
  lemma {:induction false} FullUsesAll(c: Config, tr: seq<Addr>)
    requires c.line > 0 && c.sets > 0 && c.ways > 0 && Full(c, tr)
    ensures c.sets >= CACHE_SET_SIZE
  {
    assert c.sets < CACHE_SET_SIZE ==> ConstantTags(c, tr, c.sets) == {};
  }

  /** When every set is full, each assignment under which no access reloads the
      target has at least as many conflicting lines as ways, so the formula for
      the accesses so far says evicted, and so does the cache. */
  lemma {:induction false} FullMeansEvicted(c: Config, t: Addr, tr: seq<Addr>, s: Assignment)
    requires ValidConfig(c) && c.sets == CACHE_SET_SIZE && |tr| < W32
    requires Full(c, tr) && NoReload(c, Eval(t, s), Values(tr, s))
    ensures !Verdict(c, t, tr, s)
    ensures forall cache | WellFormed(c, cache) :: !Cached(c, cache, t, tr, s)
  {
    hide Cached, WellFormed, NoReload, Values, Eval, KeepFirst, Since, Count, Full;
    var x, p := Eval(t, s), KeepFirst(tr);
    KeepFirstElems(tr);
    NoReloadElems(c, x, tr, s);
    NoReloadElems(c, x, p, s);
    EnoughLines(c, t, tr, p, s);
    CountIsDistance(c, x, Values(p, s));
    CountBound(c, x, Values(p, s));
    EnoughLines(c, t, tr, tr, s);
    forall cache | WellFormed(c, cache)
      ensures |cache| == c.sets && !Cached(c, cache, t, tr, s)
    {
      CachedIs(c, cache, t, tr, s);
    }
  }

  /** The cache by the number of lines. */
  lemma {:induction false} CachedIs(c: Config, cache: Cache, t: Addr, tr: seq<Addr>, s: Assignment)
    requires ValidConfig(c) && WellFormed(c, cache)
    ensures |cache| == c.sets && (Cached(c, cache, t, tr, s) <==> |Since(c, Eval(t, s), Values(tr, s))| < c.ways)
  {
    hide Since, Values, Eval, Run, Lru.Access, Contains;
    WellFormedSize(c, cache);
    StackDistance(c, cache, Eval(t, s), Values(tr, s));
  }

  lemma {:induction false} EnoughLines(c: Config, t: Addr, tr: seq<Addr>, p: seq<Addr>, s: Assignment)
    requires ValidConfig(c) && c.sets == CACHE_SET_SIZE && Full(c, tr)
    requires (forall a :: a in tr ==> a in p) && NoReload(c, Eval(t, s), Values(p, s))
    ensures |Since(c, Eval(t, s), Values(p, s))| >= c.ways
  {
    hide SetOf, TagOf, Since, Values, NoReload;
    var k, lines := SetOf(c, Eval(t, s)), Since(c, Eval(t, s), Values(p, s));
    forall g | g in ConstantTags(c, tr, k)
      ensures g in lines
    {
      TagCounts(c, t, tr, p, s, g);
    }
    SubsetSize(ConstantTags(c, tr, k), lines);
  }

  lemma {:induction false} TagCounts(c: Config, t: Addr, tr: seq<Addr>, p: seq<Addr>, s: Assignment, g: nat)
    requires ValidConfig(c) && g in ConstantTags(c, tr, SetOf(c, Eval(t, s)))
    requires (forall a :: a in tr ==> a in p) && NoReload(c, Eval(t, s), Values(p, s))
    ensures g in Since(c, Eval(t, s), Values(p, s))
  {
    hide SetOf, TagOf, Since;
    var x := Eval(t, s);
    var a :| a in tr && a.Const? && SetOf(c, a.value) == SetOf(c, x) && TagOf(c, a.value) == g;
    var i :| 0 <= i < |p| && p[i] == a;
    var xs := Values(p, s);
    assert xs[i] == a.value;
    assert !Reloads(c, x, xs[i]);
    SinceMembers(c, x, xs);
  }

  // --- Where the shortcut is wrong --------------------------------------------------------------------

  /** The line is in the cache after the accesses, whatever the cache held before. */
  ghost predicate StaysCached(c: Config, t: Addr, tr: seq<Addr>, s: Assignment)
    requires c.line > 0 && c.sets > 0
  {
    forall cache | WellFormed(c, cache) :: Cached(c, cache, t, tr, s)
  }

  ghost predicate IsEvicted(c: Config, t: Addr, tr: seq<Addr>, s: Assignment)
    requires c.line > 0 && c.sets > 0
  {
    forall cache | WellFormed(c, cache) :: !Cached(c, cache, t, tr, s)
  }

  /** An eviction is right exactly when as many other lines of the set as there are ways came since the last reload, and
      it is wrong for every cache otherwise. */
  lemma {:induction false} EvictionExact(c: Config, t: Addr, tr: seq<Addr>, s: Assignment)
    requires ValidConfig(c)
    ensures IsEvicted(c, t, tr, s) <==> |Since(c, Eval(t, s), Values(tr, s))| >= c.ways
    ensures StaysCached(c, t, tr, s) <==> |Since(c, Eval(t, s), Values(tr, s))| < c.ways
  {
    hide Since, Values, Eval, Cached;
    var empty: Cache := seq(c.sets, _ => []);
    assert WellFormed(c, empty);
    CachedIs(c, empty, t, tr, s);
    forall cache | WellFormed(c, cache)
      ensures |cache| == c.sets && (Cached(c, cache, t, tr, s) <==> |Since(c, Eval(t, s), Values(tr, s))| < c.ways)
    {
      CachedIs(c, cache, t, tr, s);
    }
  }

  /** A last access that reloads the target leaves it in the cache. */
  lemma {:induction false} ReloadDefeatsShortcut(c: Config, t: Addr, tr: seq<Addr>, a: Addr, s: Assignment)
    requires ValidConfig(c) && Reloads(c, Eval(t, s), Eval(a, s))
    ensures StaysCached(c, t, tr + [a], s)
    ensures a !in tr && |tr| + 1 < W32 ==> Verdict(c, t, tr + [a], s)
  {
    hide Reloads, KeepFirst, Since, StaysCached, Verdict;
    var x := Eval(t, s);
    assert Values(tr + [a], s) == Values(tr, s) + [Eval(a, s)];
    SinceAppend(c, x, Values(tr, s), Eval(a, s));
    EvictionExact(c, t, tr + [a], s);
    if a !in tr && |tr| + 1 < W32 {
      ReloadVerdict(c, t, tr, a, s);
    }
  }

  lemma {:induction false} ReloadVerdict(c: Config, t: Addr, tr: seq<Addr>, a: Addr, s: Assignment)
    requires ValidConfig(c) && |tr| + 1 < W32 && a !in tr && Reloads(c, Eval(t, s), Eval(a, s))
    ensures Verdict(c, t, tr + [a], s)
  {
    var x, p := Eval(t, s), KeepFirst(tr);
    assert (tr + [a])[..|tr|] == tr;
    assert KeepFirst(tr + [a]) == p + [a];
    hide Reloads, KeepFirst, Since;
    assert Values(p + [a], s) == Values(p, s) + [Eval(a, s)];
    SinceAppend(c, x, Values(p, s), Eval(a, s));
    CountIsDistance(c, x, Values(p + [a], s));
  }

  /** For a symbolic target some assignment makes it wrong whenever it is taken: the one that gives the target the address
      of the constant that filled the recorder. */
  lemma {:induction false} SymbolicShortcutWrong(c: Config, t: Addr, tr: seq<Addr>, a: Addr)
    requires ValidConfig(c) && t.Sym? && a.Const?
    ensures exists s: Assignment :: StaysCached(c, t, tr + [a], s)
  {
    hide StaysCached;
    var s: Assignment := (id: nat) => a.value;
    SelfReloads(c, a.value);
    ReloadDefeatsShortcut(c, t, tr, a, s);
  }
}
