/** What the formula counts for a constant target after any accesses, constant or symbolic. */
module ConstantTargets {
  import opened CacheLines
  import opened CacheUtil
  import opened Lru
  import opened CacheTrace
  import opened CacheState

  /** The last access to line `y` of the target's set is by a symbolic expression. */
  predicate LastSymbolic(c: Config, x: nat, tr: seq<Addr>, s: Assignment, y: nat)
    requires c.line > 0 && c.sets > 0
  {
    exists i :: 0 <= i < |tr| && SymbolicAt(c, x, tr, s, y, i)
  }

  predicate SymbolicAt(c: Config, x: nat, tr: seq<Addr>, s: Assignment, y: nat, i: nat)
    requires c.line > 0 && c.sets > 0 && i < |tr|
  {
    && tr[i].Sym? && Conflicts(c, x, Eval(tr[i], s)) && TagOf(c, Eval(tr[i], s)) == y
    && forall j :: i < j < |tr| ==> !Reloads(c, Eval(tr[i], s), Eval(tr[j], s))
  }

  /** The lines since the target's last reload that were last accessed by a symbolic expression. */
  function SymbolicLines(c: Config, x: nat, tr: seq<Addr>, s: Assignment): set<nat>
    requires c.line > 0 && c.sets > 0
  {
    set y | y in Since(c, x, Values(tr, s)) && LastSymbolic(c, x, tr, s, y)
  }

  /** A line stays last accessed by a symbolic expression, whatever came before. */
  lemma {:induction false} LastSymbolicTail(c: Config, x: nat, tr: seq<Addr>, s: Assignment, y: nat)
    requires c.line > 0 && c.sets > 0 && tr != []
    ensures LastSymbolic(c, x, tr, s, y) <==> LastSymbolic(c, x, tr[1..], s, y) || SymbolicAt(c, x, tr, s, y, 0)
  {
    hide Conflicts, Reloads, TagOf, Eval;
    var rest := tr[1..];
    forall i | 0 <= i < |rest|
      ensures SymbolicAt(c, x, rest, s, y, i) <==> SymbolicAt(c, x, tr, s, y, i + 1)
    {
      assert rest[i] == tr[i + 1];
      assert forall j :: i + 1 < j < |tr| ==> tr[j] == rest[j - 1];
      assert forall j :: i < j < |rest| ==> rest[j] == tr[j + 1];
    }
    if LastSymbolic(c, x, tr, s, y) && !SymbolicAt(c, x, tr, s, y, 0) {
      var i :| 0 <= i < |tr| && SymbolicAt(c, x, tr, s, y, i);
      assert SymbolicAt(c, x, rest, s, y, i - 1);
    }
    if LastSymbolic(c, x, rest, s, y) {
      var i :| 0 <= i < |rest| && SymbolicAt(c, x, rest, s, y, i);
      assert SymbolicAt(c, x, tr, s, y, i + 1);
    }
  }

  /** The first access adds a line exactly when it adds one to the formula. */
  lemma {:induction false} FirstAdds(c: Config, t: Addr, tr: seq<Addr>, s: Assignment)
    requires c.line > 0 && c.sets > 0 && t.Const? && tr != [] && !Certain(c, t, tr[0])
    ensures Adds(c, t, tr[0], tr[1..], s) <==>
      SymbolicAt(c, t.value, tr, s, TagOf(c, Eval(tr[0], s)), 0) && NoReload(c, t.value, Values(tr[1..], s))
  {
    hide Conflicts, Reloads, TagOf, Eval;
    var rest := tr[1..];
    assert Eval(t, s) == t.value by { ConstantValue(t, s); }
    assert forall j :: 0 < j < |tr| ==> tr[j] == rest[j - 1];
    assert forall j :: 0 <= j < |rest| ==> rest[j] == tr[j + 1] && Values(rest, s)[j] == Eval(rest[j], s);
    if NoneTogether(c, tr[0], rest, s) {
      forall j | 0 < j < |tr|
        ensures !Reloads(c, Eval(tr[0], s), Eval(tr[j], s))
      {
        assert !Together(c, tr[0], rest[j - 1], s);
      }
    }
    if NoneTogether(c, t, rest, s) {
      forall j | 0 <= j < |rest|
        ensures !Reloads(c, t.value, Values(rest, s)[j])
      {
        assert !Together(c, t, rest[j], s);
      }
    }
  }

  lemma {:induction false} ConstantValue(t: Addr, s: Assignment)
    requires t.Const?
    ensures Eval(t, s) == t.value
  {
  }

  /** A line that no later access is to is not among the later lines. */
  lemma {:induction false} NewLine(c: Config, x: nat, tr: seq<Addr>, s: Assignment)
    requires c.line > 0 && c.sets > 0 && tr != [] && SymbolicAt(c, x, tr, s, TagOf(c, Eval(tr[0], s)), 0)
    ensures TagOf(c, Eval(tr[0], s)) !in Since(c, x, Values(tr[1..], s))
  {
    var rest, y := tr[1..], TagOf(c, Eval(tr[0], s));
    var xs := Values(rest, s);
    SinceMembers(c, x, xs);
    assert forall j :: 0 <= j < |xs| ==> xs[j] == Eval(tr[j + 1], s);
  }

  /** With nothing reloaded, a line last accessed by a symbolic expression is among the lines. */
  lemma {:induction false} LastSymbolicSince(c: Config, x: nat, tr: seq<Addr>, s: Assignment, y: nat)
    requires c.line > 0 && c.sets > 0 && NoReload(c, x, Values(tr, s)) && LastSymbolic(c, x, tr, s, y)
    ensures y in Since(c, x, Values(tr, s))
  {
    hide Since, TagOf, Eval, Conflicts, Reloads;
    var i :| 0 <= i < |tr| && SymbolicAt(c, x, tr, s, y, i);
    SinceMembers(c, x, Values(tr, s));
    assert Values(tr, s)[i] == Eval(tr[i], s);
  }

  lemma {:induction false} SymbolicTally(c: Config, t: Addr, tr: seq<Addr>, s: Assignment)
    requires c.line > 0 && c.sets > 0 && t.Const? && forall i :: 0 <= i < |tr| ==> !Certain(c, t, tr[i])
    ensures Tally(c, t, tr, s) == |SymbolicLines(c, t.value, tr, s)|
  {
    hide Certain, Conflicts, Reloads, TagOf, Eval, Adds, LastSymbolic, SymbolicAt, NoReload;
    if tr != [] {
      var rest, x := tr[1..], t.value;
      var xs, y := Values(tr, s), TagOf(c, Eval(tr[0], s));
      assert xs[0] == Eval(tr[0], s) && xs[1..] == Values(rest, s);
      SymbolicTally(c, t, rest, s);
      FirstAdds(c, t, tr, s);
      forall z
        ensures LastSymbolic(c, x, tr, s, z) <==> LastSymbolic(c, x, rest, s, z) || SymbolicAt(c, x, tr, s, z, 0)
      {
        LastSymbolicTail(c, x, tr, s, z);
      }
      FirstIs(c, x, tr, s);
      var before, after := SymbolicLines(c, x, rest, s), SymbolicLines(c, x, tr, s);
      if Adds(c, t, tr[0], rest, s) {
        NewLine(c, x, tr, s);
        assert after == before + {y};
      } else {
        if NoReload(c, x, xs[1..]) && LastSymbolic(c, x, rest, s, y) {
          LastSymbolicSince(c, x, rest, s, y);
        }
        assert after == before;
      }
    }
  }

  lemma {:induction false} FirstIs(c: Config, x: nat, tr: seq<Addr>, s: Assignment)
    requires c.line > 0 && c.sets > 0 && tr != []
    ensures forall z :: SymbolicAt(c, x, tr, s, z, 0) ==> z == TagOf(c, Eval(tr[0], s)) && Conflicts(c, x, Eval(tr[0], s))
    ensures SymbolicAt(c, x, tr, s, TagOf(c, Eval(tr[0], s)), 0) ==>
      TagOf(c, Eval(tr[0], s)) !in Since(c, x, Values(tr[1..], s))
  {
    hide Since, TagOf, Eval, Conflicts;
    if SymbolicAt(c, x, tr, s, TagOf(c, Eval(tr[0], s)), 0) {
      NewLine(c, x, tr, s);
    }
  }

  /** After the last certain reload nothing certain is kept. */
  lemma {:induction false} KeptOnce(c: Config, t: Addr, tr: seq<Addr>)
    requires c.line > 0 && c.sets > 0
    ensures var k := Kept(c, t, tr);
      && (Reloaded(c, t, tr) <==> k != [] && Certain(c, t, k[0]))
      && forall i :: 0 < i < |k| ==> !Certain(c, t, k[i])
  {
    hide Certain;
    if tr != [] {
      var front, a := tr[..|tr| - 1], tr[|tr| - 1];
      assert tr == front + [a];
      KeptOnce(c, t, front);
      ReloadedAppend(c, t, front, a);
      KeptAppend(c, t, front, a);
    }
  }

  /** The formula of a constant target, for every trace: the lines since its last reload that were last accessed by a
      symbolic expression, and one more if a constant reloaded it and nothing since. */
  lemma {:induction false} ConstantTargetCounts(c: Config, t: Addr, tr: seq<Addr>, s: Assignment)
    requires c.line > 0 && c.sets > 0 && t.Const?
    ensures var k := Kept(c, t, tr);
      Tally(c, t, k, s) == |SymbolicLines(c, t.value, k, s)|
        + (if Reloaded(c, t, tr) && NoReload(c, t.value, Values(k[1..], s)) then 1 else 0)
  {
    hide Kept, SymbolicLines, Tally;
    KeptOnce(c, t, tr);
    var k := Kept(c, t, tr);
    if Reloaded(c, t, tr) {
      AfterCertain(c, t, k, s);
    } else {
      SymbolicTally(c, t, k, s);
    }
  }

  lemma {:induction false} AfterCertain(c: Config, t: Addr, k: seq<Addr>, s: Assignment)
    requires c.line > 0 && c.sets > 0 && k != [] && Certain(c, t, k[0]) && forall i :: 0 < i < |k| ==> !Certain(c, t, k[i])
    ensures Tally(c, t, k, s) == |SymbolicLines(c, t.value, k, s)| + (if NoReload(c, t.value, Values(k[1..], s)) then 1 else 0)
  {
    var rest := k[1..];
    assert forall i :: 0 <= i < |rest| ==> rest[i] == k[i + 1];
    SymbolicTally(c, t, rest, s);
    CertainAdds(c, t, k, s);
    hide Adds, Certain;
    forall z
      ensures LastSymbolic(c, t.value, k, s, z) <==> LastSymbolic(c, t.value, rest, s, z)
    {
      LastSymbolicTail(c, t.value, k, s, z);
    }
    CertainSince(c, t, k, s);
    assert SymbolicLines(c, t.value, k, s) == SymbolicLines(c, t.value, rest, s);
  }

  lemma {:induction false} CertainSince(c: Config, t: Addr, k: seq<Addr>, s: Assignment)
    requires c.line > 0 && c.sets > 0 && k != [] && Certain(c, t, k[0])
    ensures Since(c, t.value, Values(k, s)) == Since(c, t.value, Values(k[1..], s)) && k[0].Const?
  {
    assert Values(k, s)[1..] == Values(k[1..], s);
  }

  lemma {:induction false} CertainAdds(c: Config, t: Addr, k: seq<Addr>, s: Assignment)
    requires c.line > 0 && c.sets > 0 && k != [] && Certain(c, t, k[0])
    ensures Adds(c, t, k[0], k[1..], s) <==> NoReload(c, t.value, Values(k[1..], s))
  {
    var rest := k[1..];
    assert forall j :: 0 <= j < |rest| ==> Values(rest, s)[j] == Eval(rest[j], s);
    if NoReload(c, t.value, Values(rest, s)) {
      forall j | 0 <= j < |rest|
        ensures !Together(c, k[0], rest[j], s) && !Together(c, t, rest[j], s)
      {
        assert !Reloads(c, t.value, Values(rest, s)[j]);
      }
    } else {
      var j :| 0 <= j < |rest| && Reloads(c, t.value, Values(rest, s)[j]);
      assert Together(c, t, rest[j], s);
    }
  }
}
