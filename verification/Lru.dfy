/** A step-by-step LRU set-associative cache, and the number of distinct other
    lines touched in a line's set since it was last loaded. */
module Lru {
  import opened CacheLines

  // --- The cache --------------------------------------------------------------------

  /** For each set, the tags it holds, most recently used first. */
  type Cache = seq<seq<nat>>

  predicate NoRepeats<T(==)>(l: seq<T>)
  {
    forall i, j :: 0 <= i < j < |l| ==> l[i] != l[j]
  }

  ghost predicate WellFormed(c: Config, cache: Cache)
  {
    && |cache| == c.sets
    && forall s :: 0 <= s < c.sets ==> NoRepeats(cache[s]) && |cache[s]| <= c.ways
  }

  function IndexOf(l: seq<nat>, x: nat): (k: nat)
    requires x in l
    ensures k < |l| && l[k] == x
  {
    if l[0] == x then 0 else 1 + IndexOf(l[1..], x)
  }

  /** Move `tag` to the front; on a miss the least recently used tag goes. */
  function Touch(l: seq<nat>, tag: nat, ways: nat): seq<nat>
  {
    if tag in l then
      var k := IndexOf(l, tag);
      [tag] + l[..k] + l[k + 1..]
    else if |l| < ways then [tag] + l
    else ([tag] + l)[..ways]
  }

  function Access(c: Config, cache: Cache, x: nat): (cache': Cache)
    requires c.line > 0 && c.sets > 0 && |cache| == c.sets
    ensures |cache'| == c.sets
  {
    cache[SetOf(c, x) := Touch(cache[SetOf(c, x)], TagOf(c, x), c.ways)]
  }

  function Run(c: Config, cache: Cache, xs: seq<nat>): (cache': Cache)
    requires c.line > 0 && c.sets > 0 && |cache| == c.sets
    ensures |cache'| == c.sets
  {
    if xs == [] then cache else Access(c, Run(c, cache, xs[..|xs| - 1]), xs[|xs| - 1])
  }

  predicate Contains(c: Config, cache: Cache, x: nat)
    requires c.line > 0 && c.sets > 0 && |cache| == c.sets
  {
    TagOf(c, x) in cache[SetOf(c, x)]
  }

  // --- Stack distance ----------------------------------------------------------------

  predicate Conflicts(c: Config, t: nat, x: nat)
    requires c.line > 0 && c.sets > 0
  {
    SetOf(c, x) == SetOf(c, t) && TagOf(c, x) != TagOf(c, t)
  }

  predicate Reloads(c: Config, t: nat, x: nat)
    requires c.line > 0 && c.sets > 0
  {
    SetOf(c, x) == SetOf(c, t) && TagOf(c, x) == TagOf(c, t)
  }

  predicate NoReload(c: Config, t: nat, xs: seq<nat>)
    requires c.line > 0 && c.sets > 0
  {
    forall i :: 0 <= i < |xs| ==> !Reloads(c, t, xs[i])
  }

  /** Tags of the other lines of `t`'s set accessed after `t` was last loaded. */
  function Since(c: Config, t: nat, xs: seq<nat>): set<nat>
    requires c.line > 0 && c.sets > 0
  {
    if xs == [] then {}
    else
      var rest := Since(c, t, xs[1..]);
      if Conflicts(c, t, xs[0]) && NoReload(c, t, xs[1..]) then rest + {TagOf(c, xs[0])} else rest
  }

  /** What one more access does to the set of lines. */
  function SinceStep(c: Config, t: nat, lines: set<nat>, x: nat): set<nat>
    requires c.line > 0 && c.sets > 0
  {
    if Reloads(c, t, x) then {} else if Conflicts(c, t, x) then lines + {TagOf(c, x)} else lines
  }

  lemma {:induction false} SinceAppend(c: Config, t: nat, xs: seq<nat>, x: nat)
    requires c.line > 0 && c.sets > 0
    ensures Since(c, t, xs + [x]) == SinceStep(c, t, Since(c, t, xs), x)
  {
    hide SetOf, TagOf, Conflicts, Reloads;
    if xs == [] {
      assert [x][1..] == [] && xs + [x] == [x];
      assert Since(c, t, []) == {} && NoReload(c, t, []);
      ConflictIsNoReload(c, t, x);
    } else {
      var rest := xs[1..];
      assert (xs + [x])[1..] == rest + [x];
      SinceAppend(c, t, rest, x);
      NoReloadAppend(c, t, rest, x);
    }
  }

  lemma {:induction false} ConflictIsNoReload(c: Config, t: nat, x: nat)
    requires c.line > 0 && c.sets > 0
    ensures !(Conflicts(c, t, x) && Reloads(c, t, x))
  {
  }

  lemma {:induction false} NoReloadAppend(c: Config, t: nat, xs: seq<nat>, x: nat)
    requires c.line > 0 && c.sets > 0
    ensures NoReload(c, t, xs + [x]) <==> NoReload(c, t, xs) && !Reloads(c, t, x)
  {
    hide Reloads;
    var ys := xs + [x];
    if NoReload(c, t, ys) {
      assert ys[|xs|] == x;
      forall i | 0 <= i < |xs|
        ensures !Reloads(c, t, xs[i])
      {
        assert ys[i] == xs[i];
      }
    }
  }

  lemma {:induction false} SubsetSize(a: set<nat>, b: set<nat>)
    requires forall x :: x in a ==> x in b
    ensures |a| <= |b|
  {
    if a != {} {
      var x :| x in a;
      SubsetSize(a - {x}, b - {x});
    }
  }

  // --- The stack property -------------------------------------------------------------

  function Elems(l: seq<nat>): set<nat>
  {
    set x | x in l
  }

  /** In the list of its set, `tag` sits right behind the lines accessed since
      it was loaded, or is gone once there are as many as there are ways. */
  predicate Tracks(l: seq<nat>, lines: set<nat>, tag: nat, ways: nat)
  {
    && NoRepeats(l) && |l| <= ways && tag !in lines
    && (|lines| < ways ==> |lines| < |l| && l[|lines|] == tag && Elems(l[..|lines|]) == lines)
    && (|lines| >= ways ==> |l| == ways && Elems(l) <= lines)
  }

  /** `l` with its element at `k` moved to the front. */
  function MoveFront(l: seq<nat>, k: nat): (m: seq<nat>)
    requires k < |l|
    ensures |m| == |l|
    ensures forall i :: 0 <= i < |l| ==> m[i] == l[if i == 0 then k else if i <= k then i - 1 else i]
  {
    [l[k]] + l[..k] + l[k + 1..]
  }

  lemma {:induction false} MoveFrontNoRepeats(l: seq<nat>, k: nat)
    requires k < |l| && NoRepeats(l)
    ensures NoRepeats(MoveFront(l, k))
  {
    var m := MoveFront(l, k);
    hide MoveFront;
    forall i, j | 0 <= i < j < |m|
      ensures m[i] != m[j]
    {
      var i' := if i == 0 then k else if i <= k then i - 1 else i;
      var j' := if j <= k then j - 1 else j;
      assert i' != j' && m[i] == l[i'] && m[j] == l[j'];
    }
  }

  lemma {:induction false} MoveFrontElems(l: seq<nat>, k: nat, n: nat)
    requires k < n <= |l|
    ensures Elems(MoveFront(l, k)[..n]) == Elems(l[..n])
  {
    var m := MoveFront(l, k);
    hide MoveFront;
    forall y
      ensures y in m[..n] <==> y in l[..n]
    {
      if y in l[..n] {
        var i :| 0 <= i < n && l[i] == y;
        assert y == m[if i < k then i + 1 else if i == k then 0 else i];
      }
      if y in m[..n] {
        var i :| 0 <= i < n && m[i] == y;
        assert y == l[if i == 0 then k else if i <= k then i - 1 else i];
      }
    }
  }

  lemma {:induction false} TouchHit(l: seq<nat>, tag: nat, ways: nat)
    requires NoRepeats(l) && tag in l
    ensures Touch(l, tag, ways) == MoveFront(l, IndexOf(l, tag))
    ensures NoRepeats(Touch(l, tag, ways))
    ensures Elems(Touch(l, tag, ways)) == Elems(l)
  {
    var k := IndexOf(l, tag);
    var m := Touch(l, tag, ways);
    MoveFrontNoRepeats(l, k);
    MoveFrontElems(l, k, |l|);
    assert m[..|l|] == m && l[..|l|] == l;
  }

  lemma {:induction false} TouchMiss(l: seq<nat>, tag: nat, ways: nat)
    requires NoRepeats(l) && tag !in l && |l| <= ways && ways > 0
    ensures NoRepeats(Touch(l, tag, ways)) && |Touch(l, tag, ways)| <= ways
    ensures Touch(l, tag, ways) == [tag] + (if |l| < ways then l else l[..ways - 1])
  {
    assert |l| == ways ==> ([tag] + l)[..ways] == [tag] + l[..ways - 1];
  }

  /** The target itself is accessed. */
  lemma {:induction false} TrackReload(l: seq<nat>, tag: nat, ways: nat)
    requires NoRepeats(l) && |l| <= ways && ways > 0
    ensures Tracks(Touch(l, tag, ways), {}, tag, ways)
  {
    if tag in l {
      TouchHit(l, tag, ways);
    } else {
      TouchMiss(l, tag, ways);
    }
    assert Elems(Touch(l, tag, ways)[..0]) == {};
  }

  /** Another line of the set is accessed. */
  lemma {:induction false} TrackConflict(l: seq<nat>, lines: set<nat>, tag: nat, ways: nat, x: nat)
    requires Tracks(l, lines, tag, ways) && x != tag && ways > 0
    ensures Tracks(Touch(l, x, ways), lines + {x}, tag, ways)
  {
    if |lines| >= ways {
      TrackEvicted(l, lines, tag, ways, x);
    } else if x in lines {
      TrackAgain(l, lines, tag, ways, x);
    } else {
      TrackNew(l, lines, tag, ways, x);
    }
  }

  lemma {:induction false} TrackEvicted(l: seq<nat>, lines: set<nat>, tag: nat, ways: nat, x: nat)
    requires Tracks(l, lines, tag, ways) && x != tag && ways > 0 && |lines| >= ways
    ensures Tracks(Touch(l, x, ways), lines + {x}, tag, ways)
  {
    assert |lines + {x}| >= |lines| by {
      assert x in lines ==> lines + {x} == lines;
    }
    if x in l {
      TouchHit(l, x, ways);
    } else {
      TouchMiss(l, x, ways);
      forall y | y in Touch(l, x, ways)
        ensures y in lines + {x}
      {
        if y != x {
          assert y in l;
          assert y in Elems(l);
        }
      }
    }
  }

  lemma {:induction false} TrackAgain(l: seq<nat>, lines: set<nat>, tag: nat, ways: nat, x: nat)
    requires Tracks(l, lines, tag, ways) && x in lines && |lines| < ways
    ensures Tracks(Touch(l, x, ways), lines + {x}, tag, ways)
  {
    var n := |lines|;
    assert lines + {x} == lines;
    assert x in Elems(l[..n]);
    assert x in l;
    TouchHit(l, x, ways);
    var k := IndexOf(l, x);
    var j :| 0 <= j < n && l[j] == x;
    assert j == k;
    MoveFrontElems(l, k, n);
    hide IndexOf, Touch;
    assert Touch(l, x, ways)[n] == l[n];
  }

  lemma {:induction false} TrackNew(l: seq<nat>, lines: set<nat>, tag: nat, ways: nat, x: nat)
    requires Tracks(l, lines, tag, ways) && x != tag && x !in lines && |lines| < ways
    ensures Tracks(Touch(l, x, ways), lines + {x}, tag, ways)
  {
    var n := |lines|;
    var m := Touch(l, x, ways);
    NewAtFront(l, n, tag, ways, x, lines);
    hide Touch, IndexOf, NoRepeats;
    assert |lines + {x}| == n + 1;
    NewPrefix(m, l, n, x, lines);
    assert n + 1 == ways ==> m[..n + 1] == m;
  }

  lemma {:induction false} NewAtFront(l: seq<nat>, n: nat, tag: nat, ways: nat, x: nat, lines: set<nat>)
    requires NoRepeats(l) && n < |l| <= ways && l[n] == tag && Elems(l[..n]) == lines && x != tag && x !in lines
    ensures var m := Touch(l, x, ways);
            NoRepeats(m) && n + 1 <= |m| <= ways && m[..n + 1] == [x] + l[..n]
            && (n + 1 < ways ==> n + 1 < |m| && m[n + 1] == tag)
  {
    if x in l {
      var k := IndexOf(l, x);
      TouchHit(l, x, ways);
      hide IndexOf, Touch;
    } else {
      TouchMiss(l, x, ways);
      hide Touch;
    }
  }

  lemma {:induction false} NewPrefix(m: seq<nat>, l: seq<nat>, n: nat, x: nat, lines: set<nat>)
    requires n <= |l| && n + 1 <= |m| && m[..n + 1] == [x] + l[..n] && Elems(l[..n]) == lines
    ensures Elems(m[..n + 1]) == lines + {x}
  {
    var p := l[..n];
    forall y
      ensures y in [x] + p <==> y in lines + {x}
    {
      assert y in p <==> y in Elems(p);
    }
  }

  lemma {:induction false} AccessWellFormed(c: Config, cache: Cache, x: nat)
    requires ValidConfig(c) && WellFormed(c, cache)
    ensures WellFormed(c, Access(c, cache, x))
  {
    hide SetOf, TagOf, Touch;
    var l := cache[SetOf(c, x)];
    if TagOf(c, x) in l {
      TouchHit(l, TagOf(c, x), c.ways);
    } else {
      TouchMiss(l, TagOf(c, x), c.ways);
    }
  }

  /** Runs keep the lists free of repeats and no longer than the ways. */
  lemma {:induction false} RunWellFormed(c: Config, cache: Cache, xs: seq<nat>)
    requires ValidConfig(c) && WellFormed(c, cache)
    ensures WellFormed(c, Run(c, cache, xs))
  {
    hide Access;
    if xs != [] {
      RunWellFormed(c, cache, xs[..|xs| - 1]);
      AccessWellFormed(c, Run(c, cache, xs[..|xs| - 1]), xs[|xs| - 1]);
    }
  }

  lemma {:induction false} TracksRun(c: Config, cache: Cache, t: nat, xs: seq<nat>)
    requires ValidConfig(c) && WellFormed(c, cache)
    ensures var cache' := Run(c, Access(c, cache, t), xs);
            Tracks(cache'[SetOf(c, t)], Since(c, t, xs), TagOf(c, t), c.ways)
  {
    hide SetOf, TagOf, Touch, Tracks;
    if xs == [] {
      TrackReload(cache[SetOf(c, t)], TagOf(c, t), c.ways);
    } else {
      var xs', x := xs[..|xs| - 1], xs[|xs| - 1];
      assert xs == xs' + [x];
      TracksRun(c, cache, t, xs');
      SinceAppend(c, t, xs', x);
      TracksStep(c, Run(c, Access(c, cache, t), xs'), t, Since(c, t, xs'), x);
    }
  }

  lemma {:induction false} TracksStep(c: Config, cache: Cache, t: nat, lines: set<nat>, x: nat)
    requires ValidConfig(c) && |cache| == c.sets
    requires Tracks(cache[SetOf(c, t)], lines, TagOf(c, t), c.ways)
    ensures Tracks(Access(c, cache, x)[SetOf(c, t)], SinceStep(c, t, lines, x), TagOf(c, t), c.ways)
  {
    hide SetOf, TagOf, Touch;
    var l := cache[SetOf(c, t)];
    if Reloads(c, t, x) {
      TrackReload(l, TagOf(c, t), c.ways);
    } else if Conflicts(c, t, x) {
      TrackConflict(l, lines, TagOf(c, t), c.ways, TagOf(c, x));
    }
  }

  /** After `t` and then `xs` have been accessed, whatever the cache held before,
      `t` is still cached exactly when fewer lines than ways came since. */
  lemma {:induction false} StackDistance(c: Config, cache: Cache, t: nat, xs: seq<nat>)
    requires ValidConfig(c) && WellFormed(c, cache)
    ensures Contains(c, Run(c, Access(c, cache, t), xs), t) <==> |Since(c, t, xs)| < c.ways
  {
    hide Run, Access, SetOf, TagOf, Since;
    TracksRun(c, cache, t, xs);
    var l := Run(c, Access(c, cache, t), xs)[SetOf(c, t)];
    var lines, tag := Since(c, t, xs), TagOf(c, t);
    assert tag in l <==> tag in Elems(l);
  }
}
