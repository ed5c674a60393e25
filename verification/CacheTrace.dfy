/** Access traces of address expressions, and what the recorded constraints of a
    trace count under an assignment. */
module CacheTrace {
  import opened Words
  import opened CacheLines
  import opened CacheUtil
  import opened Lru

  function Values(tr: seq<Addr>, s: Assignment): (xs: seq<nat>)
    ensures |xs| == |tr|
    ensures forall i :: 0 <= i < |tr| ==> xs[i] == Eval(tr[i], s)
  {
    if tr == [] then [] else [Eval(tr[0], s)] + Values(tr[1..], s)
  }

  /** The three constraints recorded for the access at `i`: it maps to the
      target's set with another tag, no later access is to the same line, and
      no later access reloads the target. */
  predicate CountsAt(c: Config, t: nat, xs: seq<nat>, i: nat)
    requires c.line > 0 && c.sets > 0 && i < |xs|
  {
    && Conflicts(c, t, xs[i])
    && (forall j :: i < j < |xs| ==> !Reloads(c, xs[i], xs[j]))
    && (forall j :: i < j < |xs| ==> !Reloads(c, t, xs[j]))
  }

  /** The number of accesses at which all three constraints hold. */
  function Count(c: Config, t: nat, xs: seq<nat>): nat
    requires c.line > 0 && c.sets > 0
  {
    if xs == [] then 0 else (if CountsAt(c, t, xs, 0) then 1 else 0) + Count(c, t, xs[1..])
  }

  /** The constraints count every line once: the sum is the stack distance. */
  lemma {:induction false} CountIsDistance(c: Config, t: nat, xs: seq<nat>)
    requires c.line > 0 && c.sets > 0
    ensures Count(c, t, xs) == |Since(c, t, xs)|
  {
    hide Conflicts, Reloads;
    if xs != [] {
      var ys := xs[1..];
      CountIsDistance(c, t, ys);
      SinceMembers(c, t, ys);
      FirstCounts(c, t, xs);
    }
  }

  /** A tag is in `Since` exactly when a conflicting access to it follows the
      last reload. */
  lemma {:induction false} SinceMembers(c: Config, t: nat, xs: seq<nat>)
    requires c.line > 0 && c.sets > 0
    ensures forall y :: y in Since(c, t, xs) ==>
      exists j :: 0 <= j < |xs| && Conflicts(c, t, xs[j]) && TagOf(c, xs[j]) == y
    ensures NoReload(c, t, xs) ==>
      forall j :: 0 <= j < |xs| && Conflicts(c, t, xs[j]) ==> TagOf(c, xs[j]) in Since(c, t, xs)
  {
    hide Conflicts, Reloads, TagOf;
    if xs != [] {
      var ys := xs[1..];
      SinceMembers(c, t, ys);
      forall y | y in Since(c, t, xs)
        ensures exists j :: 0 <= j < |xs| && Conflicts(c, t, xs[j]) && TagOf(c, xs[j]) == y
      {
        if y in Since(c, t, ys) {
          var j :| 0 <= j < |ys| && Conflicts(c, t, ys[j]) && TagOf(c, ys[j]) == y;
          assert xs[j + 1] == ys[j];
        } else {
          assert Conflicts(c, t, xs[0]) && TagOf(c, xs[0]) == y;
        }
      }
      if NoReload(c, t, xs) {
        assert forall j :: 0 <= j < |ys| ==> ys[j] == xs[j + 1];
        forall j | 0 <= j < |xs| && Conflicts(c, t, xs[j])
          ensures TagOf(c, xs[j]) in Since(c, t, xs)
        {
          if j > 0 {
            assert xs[j] == ys[j - 1];
          }
        }
      }
    }
  }

  lemma {:induction false} FirstCounts(c: Config, t: nat, xs: seq<nat>)
    requires c.line > 0 && c.sets > 0 && xs != []
    requires forall y :: y in Since(c, t, xs[1..]) ==>
      exists j :: 0 <= j < |xs[1..]| && Conflicts(c, t, xs[1..][j]) && TagOf(c, xs[1..][j]) == y
    requires NoReload(c, t, xs[1..]) ==>
      forall j :: 0 <= j < |xs[1..]| && Conflicts(c, t, xs[1..][j]) ==> TagOf(c, xs[1..][j]) in Since(c, t, xs[1..])
    ensures |Since(c, t, xs)| == (if CountsAt(c, t, xs, 0) then 1 else 0) + |Since(c, t, xs[1..])|
  {
    hide SetOf, TagOf;
    var ys, x := xs[1..], xs[0];
    var rest := Since(c, t, ys);
    assert forall j :: 0 <= j < |ys| ==> ys[j] == xs[j + 1];
    assert forall j :: 0 < j < |xs| ==> xs[j] == ys[j - 1];
    if Conflicts(c, t, x) && NoReload(c, t, ys) {
      if TagOf(c, x) in rest {
        var j :| 0 <= j < |ys| && Conflicts(c, t, ys[j]) && TagOf(c, ys[j]) == TagOf(c, x);
        assert Reloads(c, x, xs[j + 1]);
        assert rest + {TagOf(c, x)} == rest;
      } else {
        forall j | 0 < j < |xs|
          ensures !Reloads(c, x, xs[j]) && !Reloads(c, t, xs[j])
        {
          assert xs[j] == ys[j - 1];
        }
      }
    }
  }

  // --- Repeated expressions ------------------------------------------------------------

  /** A repeated expression is skipped when it is already recorded, so the
      record keeps first occurrences. */
  function KeepFirst(tr: seq<Addr>): seq<Addr>
  {
    if tr == [] then []
    else
      var front, a := tr[..|tr| - 1], tr[|tr| - 1];
      if a in front then KeepFirst(front) else KeepFirst(front) + [a]
  }

  function KeepLast(tr: seq<Addr>): seq<Addr>
  {
    if tr == [] then []
    else if tr[0] in tr[1..] then KeepLast(tr[1..])
    else [tr[0]] + KeepLast(tr[1..])
  }

  lemma {:induction false} KeepFirstElems(tr: seq<Addr>)
    ensures NoRepeats(KeepFirst(tr)) && |KeepFirst(tr)| <= |tr|
    ensures forall a :: a in KeepFirst(tr) <==> a in tr
  {
    if tr != [] {
      var front, a := tr[..|tr| - 1], tr[|tr| - 1];
      KeepFirstElems(front);
      assert tr == front + [a];
    }
  }

  lemma {:induction false} KeepLastElems(tr: seq<Addr>)
    ensures NoRepeats(KeepLast(tr))
    ensures forall a :: a in KeepLast(tr) <==> a in tr
  {
    if tr != [] {
      KeepLastElems(tr[1..]);
      assert tr == [tr[0]] + tr[1..];
    }
  }

  /** Distinct expressions are all recorded. */
  lemma {:induction false} KeepAll(tr: seq<Addr>)
    requires NoRepeats(tr)
    ensures KeepFirst(tr) == tr
  {
    if tr != [] {
      var front, a := tr[..|tr| - 1], tr[|tr| - 1];
      KeepAll(front);
      assert tr == front + [a];
    }
  }

  lemma {:induction false} KeepAllLast(tr: seq<Addr>)
    requires NoRepeats(tr)
    ensures KeepLast(tr) == tr
  {
    if tr != [] {
      KeepAllLast(tr[1..]);
      assert tr == [tr[0]] + tr[1..];
    }
  }

  lemma {:induction false} NoReloadElems(c: Config, t: nat, tr: seq<Addr>, s: Assignment)
    requires c.line > 0 && c.sets > 0
    ensures NoReload(c, t, Values(tr, s)) <==> forall a :: a in tr ==> !Reloads(c, t, Eval(a, s))
  {
    hide Reloads, Eval;
    var xs := Values(tr, s);
    if NoReload(c, t, xs) {
      forall a | a in tr
        ensures !Reloads(c, t, Eval(a, s))
      {
        var i :| 0 <= i < |tr| && tr[i] == a;
        assert xs[i] == Eval(a, s);
      }
    }
  }

  /** For the cache only last occurrences matter. */
  lemma {:induction false} SinceKeepLast(c: Config, t: nat, tr: seq<Addr>, s: Assignment)
    requires c.line > 0 && c.sets > 0
    ensures Since(c, t, Values(KeepLast(tr), s)) == Since(c, t, Values(tr, s))
  {
    hide Reloads, Conflicts, Eval, TagOf;
    if tr != [] {
      var rest := tr[1..];
      SinceKeepLast(c, t, rest, s);
      KeepLastElems(rest);
      NoReloadElems(c, t, rest, s);
      NoReloadElems(c, t, KeepLast(rest), s);
      var xs, ys := Values(tr, s), Values(rest, s);
      assert xs[1..] == ys;
      if tr[0] in rest {
        var j :| 0 <= j < |rest| && rest[j] == tr[0];
        assert ys[j] == xs[0];
        SinceMembers(c, t, ys);
      } else {
        var zs := Values(KeepLast(tr), s);
        assert KeepLast(tr)[1..] == KeepLast(rest);
        assert zs[1..] == Values(KeepLast(rest), s) && zs[0] == xs[0];
      }
    }
  }

  // --- Lines after a reload ----------------------------------------------------------------

  /** Nothing before a point where the set is empty matters. */
  lemma {:induction false} SinceAfter(c: Config, t: nat, xs: seq<nat>, ys: seq<nat>)
    requires c.line > 0 && c.sets > 0 && Since(c, t, xs) == {}
    ensures Since(c, t, xs + ys) == Since(c, t, ys)
    decreases |ys|
  {
    hide Conflicts, Reloads, TagOf;
    if ys == [] {
      assert xs + ys == xs;
    } else {
      var front, y := ys[..|ys| - 1], ys[|ys| - 1];
      assert ys == front + [y] && xs + ys == (xs + front) + [y];
      SinceAfter(c, t, xs, front);
      SinceAppend(c, t, xs + front, y);
      SinceAppend(c, t, front, y);
    }
  }

  lemma {:induction false} SinceAfterReload(c: Config, t: nat, xs: seq<nat>, x: nat, ys: seq<nat>)
    requires c.line > 0 && c.sets > 0 && Reloads(c, t, x)
    ensures Since(c, t, xs + [x] + ys) == Since(c, t, ys)
  {
    hide Reloads, Since;
    SinceAppend(c, t, xs, x);
    SinceAfter(c, t, xs + [x], ys);
  }

  /** The accesses after the last one that uses the target's own expression. */
  function After(t: Addr, p: seq<Addr>): seq<Addr>
  {
    if p == [] || p[|p| - 1] == t then [] else After(t, p[..|p| - 1]) + [p[|p| - 1]]
  }

  /** What came before a use of any expression that reloads the line does not matter. */
  lemma {:induction false} SinceAfterUse(c: Config, x: nat, u: Addr, p: seq<Addr>, s: Assignment)
    requires c.line > 0 && c.sets > 0 && Reloads(c, x, Eval(u, s))
    ensures Since(c, x, Values(After(u, p), s)) == Since(c, x, Values(p, s))
  {
    hide Since, Eval, Reloads, Conflicts, SetOf, TagOf;
    if p != [] {
      var front, a := p[..|p| - 1], p[|p| - 1];
      assert p == front + [a];
      assert Values(p, s) == Values(front, s) + [Eval(a, s)];
      SinceAppend(c, x, Values(front, s), Eval(a, s));
      if a == u {
        SinceAfterReload(c, x, Values(front, s), Eval(u, s), []);
        assert Values(front, s) + [Eval(u, s)] + [] == Values(p, s);
      } else {
        SinceAfterUse(c, x, u, front, s);
        assert Values(After(u, p), s) == Values(After(u, front), s) + [Eval(a, s)];
        SinceAppend(c, x, Values(After(u, front), s), Eval(a, s));
      }
    }
  }

  /** Only accesses after the target's own last use can push it out. */
  lemma {:induction false} SinceAfterTarget(c: Config, t: Addr, p: seq<Addr>, s: Assignment)
    requires c.line > 0 && c.sets > 0
    ensures Since(c, Eval(t, s), Values(After(t, p), s)) == Since(c, Eval(t, s), Values(p, s))
  {
    SelfReloads(c, Eval(t, s));
    SinceAfterUse(c, Eval(t, s), t, p, s);
  }

  lemma {:induction false} SelfReloads(c: Config, x: nat)
    requires c.line > 0 && c.sets > 0
    ensures Reloads(c, x, x)
  {
  }

  // --- The verdict against the cache -----------------------------------------------------

  /** What the solver is asked: fewer conflicts than ways, in 32-bit arithmetic. */
  predicate Verdict(c: Config, t: Addr, tr: seq<Addr>, s: Assignment)
    requires c.line > 0 && c.sets > 0
  {
    Count(c, Eval(t, s), Values(KeepFirst(tr), s)) % W32 < c.ways
  }

  /** What happens: the target is accessed, then the trace. */
  predicate Cached(c: Config, cache: Cache, t: Addr, tr: seq<Addr>, s: Assignment)
    requires c.line > 0 && c.sets > 0 && |cache| == c.sets
  {
    Contains(c, Run(c, Access(c, cache, Eval(t, s)), Values(tr, s)), Eval(t, s))
  }

  lemma {:induction false} CountBound(c: Config, t: nat, xs: seq<nat>)
    requires c.line > 0 && c.sets > 0
    ensures Count(c, t, xs) <= |xs|
  {
    hide CountsAt;
    if xs != [] {
      CountBound(c, t, xs[1..]);
    }
  }

  /** The two sides as sizes of the same kind of set. */
  lemma {:induction false} Sides(c: Config, cache: Cache, t: Addr, tr: seq<Addr>, s: Assignment)
    requires ValidConfig(c) && WellFormed(c, cache) && |tr| < W32
    ensures Verdict(c, t, tr, s) <==> |Since(c, Eval(t, s), Values(KeepFirst(tr), s))| < c.ways
    ensures Cached(c, cache, t, tr, s) <==> |Since(c, Eval(t, s), Values(KeepLast(tr), s))| < c.ways
  {
    hide Count, Since, KeepFirst, KeepLast, Eval, Values, WellFormed, Run, Access, Contains;
    var x, ys := Eval(t, s), Values(KeepFirst(tr), s);
    CountIsDistance(c, x, ys);
    CountBound(c, x, ys);
    KeepFirstElems(tr);
    WellFormedSize(c, cache);
    StackDistance(c, cache, x, Values(tr, s));
    SinceKeepLast(c, x, tr, s);
  }

  lemma {:induction false} WellFormedSize(c: Config, cache: Cache)
    requires WellFormed(c, cache)
    ensures |cache| == c.sets
  {
  }

  /** The formula agrees with the cache under every assignment and from every initial cache. */
  ghost predicate Exact(c: Config, t: Addr, tr: seq<Addr>)
    requires ValidConfig(c)
  {
    forall cache: Cache, s: Assignment | WellFormed(c, cache) :: Verdict(c, t, tr, s) <==> Cached(c, cache, t, tr, s)
  }

  /** From the target's own last use on, expressions recur only in the order they first appeared. */
  predicate OrderKept(t: Addr, tr: seq<Addr>)
  {
    After(t, KeepFirst(tr)) == After(t, KeepLast(tr))
  }

  /** Then the formula is exact. */
  lemma {:induction false} ExactIfOrderKept(c: Config, t: Addr, tr: seq<Addr>)
    requires ValidConfig(c) && |tr| < W32 && OrderKept(t, tr)
    ensures Exact(c, t, tr)
  {
    hide Verdict, Cached, KeepFirst, KeepLast, Since, After;
    forall cache: Cache, s: Assignment | WellFormed(c, cache)
      ensures Verdict(c, t, tr, s) <==> Cached(c, cache, t, tr, s)
    {
      Sides(c, cache, t, tr, s);
      SinceAfterTarget(c, t, KeepFirst(tr), s);
      SinceAfterTarget(c, t, KeepLast(tr), s);
    }
  }

  /** In particular for pairwise distinct access expressions. */
  lemma {:induction false} ExactIfDistinct(c: Config, t: Addr, tr: seq<Addr>)
    requires ValidConfig(c) && |tr| < W32 && NoRepeats(tr)
    ensures Exact(c, t, tr)
  {
    KeepAll(tr);
    KeepAllLast(tr);
    ExactIfOrderKept(c, t, tr);
  }
}
