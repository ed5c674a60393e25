/** One sensitive target of CacheState.cpp: the constraints handleAccess records
    for it and the formula verifyCacheSideChannel builds from them. */
module CacheState {
  import opened Words
  import opened CacheLines
  import opened CacheUtil
  import opened Lru
  import opened CacheTrace
  import opened CacheRepeats
  import opened ConstantCache
  import opened ConstantShortcut
  import opened Options

  /** `a` and `b` are in one line under the assignment. */
  predicate Together(c: Config, a: Addr, b: Addr, s: Assignment)
    requires c.line > 0 && c.sets > 0
  {
    Reloads(c, Eval(a, s), Eval(b, s))
  }

  /** Two constants in one line. */
  predicate Certain(c: Config, a: Addr, b: Addr)
    requires c.line > 0 && c.sets > 0
  {
    a.Const? && b.Const? && Reloads(c, a.value, b.value)
  }

  /** Whether an access `a` is recorded for the target at all: constants in another line than a constant target's are
      not. */
  predicate Recorded(c: Config, t: Addr, a: Addr)
    requires c.line > 0 && c.sets > 0
  {
    t.Const? && a.Const? ==> Certain(c, t, a)
  }

  /** What the conflict constraint says: a conflict, but for two constants the opposite. */
  predicate Disturbs(c: Config, t: Addr, a: Addr, s: Assignment)
    requires c.line > 0 && c.sets > 0
  {
    if t.Const? && a.Const? then Certain(c, t, a) else Conflicts(c, Eval(t, s), Eval(a, s))
  }

  // --- The three kinds of constraint -----------------------------------------------------

  class Builder {
    const cfg: Config
    const sets: Tables
    const tags: Tables

    ghost predicate Valid()
      reads this, sets, tags
    {
      && ValidConfig(cfg) && sets != tags && sets.Valid() && tags.Valid()
      && sets.cfg == cfg && tags.cfg == cfg && sets.part == SetPart && tags.part == TagPart
    }

    constructor (cfg: Config)
      requires ValidConfig(cfg)
      ensures Valid() && this.cfg == cfg && fresh(sets) && fresh(tags)
    {
      this.cfg := cfg;
      sets := new Tables(cfg, SetPart);
      tags := new Tables(cfg, TagPart);
    }

    /** Set and tag constraints for a pair that is not constant/constant. */
    method SetAndTag(a: Addr, b: Addr) returns (index: Cond, tag: Cond)
      requires Valid() && !(a.Const? && b.Const?)
      modifies sets`buffer, sets`pairBuffer, tags`buffer, tags`pairBuffer
      ensures Valid()
      ensures forall s: Assignment :: Holds(index, s) <==> SetOf(cfg, Eval(a, s)) == SetOf(cfg, Eval(b, s))
      ensures forall s: Assignment :: Holds(tag, s) <==> TagOf(cfg, Eval(a, s)) == TagOf(cfg, Eval(b, s))
    {
      hide SetOf, TagOf;
      index := sets.Compare(a, b);
      tag := tags.Compare(a, b);
    }

    /** Set and tag equality of two constants. */
    method SameConstants(a: Addr, b: Addr) returns (same: bool)
      requires Valid() && a.Const? && b.Const?
      ensures same <==> Reloads(cfg, a.value, b.value)
    {
      hide SetOf, TagOf;
      same := sets.CompareConstants(a, b);
      if same {
        same := tags.CompareConstants(a, b);
      }
    }

    /** CacheState::conflicConstr. The branch for two constants accepts equal
        tags where the symbolic branch demands different ones. */
    method ConflictConstr(a: Addr, b: Addr) returns (possible: bool, result: Cond)
      requires Valid()
      modifies sets`buffer, sets`pairBuffer, tags`buffer, tags`pairBuffer
      ensures Valid()
      ensures possible <==> Recorded(cfg, a, b)
      ensures forall s: Assignment :: Holds(result, s) <==> Disturbs(cfg, a, b, s)
      ensures a.Const? && b.Const? ==> result == Bool(possible)
    {
      hide SetOf, TagOf;
      if a.Const? && b.Const? {
        possible := SameConstants(a, b);
        result := Bool(possible);
      } else {
        var x, y := SetAndTag(a, b);
        result := Both(x, IsZero(y));
        possible := true;
      }
    }

    /** CacheState::uniqueConstr: no constraint for constants in different lines. */
    method UniqueConstr(a: Addr, b: Addr) returns (unique: bool, result: Option<Cond>)
      requires Valid()
      modifies sets`buffer, sets`pairBuffer, tags`buffer, tags`pairBuffer
      ensures Valid()
      ensures unique <==> result.None?
      ensures forall s: Assignment :: (result.Some? ==> Holds(result.value, s)) <==> !Together(cfg, a, b, s)
    {
      hide SetOf, TagOf;
      if a.Const? && b.Const? {
        var same := SameConstants(a, b);
        if same {
          return false, Some(Bool(false));
        }
        return true, None;
      }
      var x, y := SetAndTag(a, b);
      return false, Some(Either(IsZero(x), IsZero(y)));
    }

    /** CacheState::reloadConstr: a certain reload is reported as such. */
    method ReloadConstr(a: Addr, b: Addr) returns (reload: bool, result: Cond)
      requires Valid()
      modifies sets`buffer, sets`pairBuffer, tags`buffer, tags`pairBuffer
      ensures Valid()
      ensures reload <==> a.Const? && b.Const? && Reloads(cfg, a.value, b.value)
      ensures !reload ==> forall s: Assignment :: Holds(result, s) <==> !Together(cfg, a, b, s)
    {
      hide SetOf, TagOf;
      if a.Const? && b.Const? {
        reload := SameConstants(a, b);
        result := Bool(true);
      } else {
        var x, y := SetAndTag(a, b);
        return false, Either(IsZero(x), IsZero(y));
      }
    }
  }

  // --- What is recorded ------------------------------------------------------------------------

  /** The constraints stored for `a`; there may be none. */
  function Stored(m: map<Addr, set<Cond>>, a: Addr): set<Cond>
  {
    if a in m then m[a] else {}
  }

  predicate AllHold(m: map<Addr, set<Cond>>, a: Addr, s: Assignment)
  {
    forall k :: k in Stored(m, a) ==> Holds(k, s)
  }

  function Insert(m: map<Addr, set<Cond>>, a: Addr, k: Cond): map<Addr, set<Cond>>
  {
    m[a := Stored(m, a) + {k}]
  }

  lemma {:induction false} InsertHolds(m: map<Addr, set<Cond>>, a: Addr, k: Cond, b: Addr, s: Assignment)
    ensures AllHold(Insert(m, a, k), b, s) <==> AllHold(m, b, s) && (b == a ==> Holds(k, s))
  {
  }

  datatype Record = Record(
    confAddrs: set<Addr>,
    confConstrs: map<Addr, Cond>,
    uniqueConstrs: map<Addr, set<Cond>>,
    reloads: map<Addr, set<Cond>>)

  const EMPTY_RECORD := Record({}, map[], map[], map[])

  /** `later` accesses are to other lines than `a`. */
  predicate NoneTogether(c: Config, a: Addr, later: seq<Addr>, s: Assignment)
    requires c.line > 0 && c.sets > 0
  {
    forall j :: 0 <= j < |later| ==> !Together(c, a, later[j], s)
  }

  /** No recorded address comes twice. */
  predicate Once(c: Config, t: Addr, tr: seq<Addr>)
    requires c.line > 0 && c.sets > 0
  {
    forall i, j :: 0 <= i < j < |tr| && Recorded(c, t, tr[i]) ==> tr[i] != tr[j]
  }

  /** The record means: for each recorded address of `tr` in order, what its conflict constraint says, no later access
      to its line, and no later access to the target's. */
  ghost predicate Records(c: Config, t: Addr, tr: seq<Addr>, r: Record)
    requires c.line > 0 && c.sets > 0
  {
    && Once(c, t, tr)
    && (forall a :: a in r.confAddrs <==> a in tr && Recorded(c, t, a))
    && WellKeyed(r)
    && forall i, s: Assignment | 0 <= i < |tr| && Recorded(c, t, tr[i]) :: MeansAt(c, t, tr, r, i, s)
  }

  predicate WellKeyed(r: Record)
  {
    r.confConstrs.Keys == r.confAddrs && r.uniqueConstrs.Keys <= r.confAddrs && r.reloads.Keys <= r.confAddrs
  }

  predicate MeansAt(c: Config, t: Addr, tr: seq<Addr>, r: Record, i: nat, s: Assignment)
    requires c.line > 0 && c.sets > 0 && i < |tr|
  {
    && tr[i] in r.confConstrs
    && (Holds(r.confConstrs[tr[i]], s) <==> Disturbs(c, t, tr[i], s))
    && (AllHold(r.uniqueConstrs, tr[i], s) <==> NoneTogether(c, tr[i], tr[i + 1..], s))
    && (AllHold(r.reloads, tr[i], s) <==> NoneTogether(c, t, tr[i + 1..], s))
  }

  /** The accesses the record speaks of: a recorded one is skipped when it comes again, and a certain reload leaves only
      itself. */
  function Kept(c: Config, t: Addr, tr: seq<Addr>): seq<Addr>
    requires c.line > 0 && c.sets > 0
  {
    if tr == [] then [] else
      KeptStep(c, t, Kept(c, t, tr[..|tr| - 1]), tr[|tr| - 1])
  }

  function KeptStep(c: Config, t: Addr, front: seq<Addr>, a: Addr): seq<Addr>
    requires c.line > 0 && c.sets > 0
  {
    if a in front && Recorded(c, t, a) then front
    else if Certain(c, t, a) then [a]
    else front + [a]
  }

  lemma {:induction false} KeptAppend(c: Config, t: Addr, tr: seq<Addr>, a: Addr)
    requires c.line > 0 && c.sets > 0
    ensures Kept(c, t, tr + [a]) == KeptStep(c, t, Kept(c, t, tr), a)
  {
    assert (tr + [a])[..|tr|] == tr;
  }

  /** Not both the target and an access are constants. */
  predicate Comparable(t: Addr, tr: seq<Addr>)
  {
    t.Sym? || Symbolic(tr)
  }

  /** Then these are the first occurrences. */
  lemma {:induction false} KeptIsKeepFirst(c: Config, t: Addr, tr: seq<Addr>)
    requires c.line > 0 && c.sets > 0 && Comparable(t, tr)
    ensures Kept(c, t, tr) == KeepFirst(tr)
  {
    if tr != [] {
      assert tr[|tr| - 1] in tr && forall a :: a in tr[..|tr| - 1] ==> a in tr;
      KeptIsKeepFirst(c, t, tr[..|tr| - 1]);
      KeepFirstElems(tr[..|tr| - 1]);
    }
  }

  /** The address a constraint compares with: the target if given. */
  function Whose(target: Option<Addr>, b: Addr): Addr
  {
    if target.Some? then target.value else b
  }

  /** `m'` strengthens the entries of `done` by "not together with `a`", taking
      the entry's own address or, if given, the target. */
  ghost predicate Strengthened(c: Config, m: map<Addr, set<Cond>>, m': map<Addr, set<Cond>>,
                               done: set<Addr>, target: Option<Addr>, a: Addr)
    requires c.line > 0 && c.sets > 0
  {
    && m.Keys <= m'.Keys <= m.Keys + done
    && forall b, s: Assignment :: AllHold(m', b, s) <==>
         AllHold(m, b, s) && (b in done ==> !Together(c, Whose(target, b), a, s))
  }

  lemma {:induction false} NoneTogetherAppend(c: Config, a: Addr, later: seq<Addr>, b: Addr, s: Assignment)
    requires c.line > 0 && c.sets > 0
    ensures NoneTogether(c, a, later + [b], s) <==> NoneTogether(c, a, later, s) && !Together(c, a, b, s)
  {
    hide Together;
    var l := later + [b];
    assert l[|later|] == b;
    assert forall j :: 0 <= j < |later| ==> l[j] == later[j];
  }

  /** One more access that does not certainly reload the target. */
  lemma {:induction false} RecordsAppend(c: Config, t: Addr, tr: seq<Addr>, r: Record, r': Record, a: Addr)
    requires c.line > 0 && c.sets > 0 && Records(c, t, tr, r) && a !in r.confAddrs
    requires Extended(c, t, r, r', a)
    ensures Records(c, t, tr + [a], r')
  {
    hide Disturbs, Eval, Together, Holds, AllHold, Certain, Recorded;
    var tr' := tr + [a];
    forall i, s: Assignment | 0 <= i < |tr'| && Recorded(c, t, tr'[i])
      ensures MeansAt(c, t, tr', r', i, s)
    {
      if i < |tr| {
        assert tr'[i] == tr[i] && tr'[i + 1..] == tr[i + 1..] + [a];
        MeansOn(c, t, tr, r, r', a, i, s);
      } else {
        assert tr'[i + 1..] == [];
        NothingFor(r, a, s);
        assert AllHold(r'.uniqueConstrs, a, s) <==> AllHold(r.uniqueConstrs, a, s);
        assert AllHold(r'.reloads, a, s) <==> AllHold(r.reloads, a, s);
      }
    }
  }

  lemma {:induction false} MeansOn(c: Config, t: Addr, tr: seq<Addr>, r: Record, r': Record, a: Addr, i: nat, s: Assignment)
    requires c.line > 0 && c.sets > 0 && Records(c, t, tr, r) && i < |tr| && Recorded(c, t, tr[i]) && Extended(c, t, r, r', a)
    ensures tr[i] in r'.confConstrs && (Holds(r'.confConstrs[tr[i]], s) <==> Disturbs(c, t, tr[i], s))
    ensures AllHold(r'.uniqueConstrs, tr[i], s) <==> NoneTogether(c, tr[i], tr[i + 1..] + [a], s)
    ensures AllHold(r'.reloads, tr[i], s) <==> NoneTogether(c, t, tr[i + 1..] + [a], s)
  {
    hide Disturbs, Eval, Together, Holds, AllHold, Certain, Recorded, NoneTogether;
    assert MeansAt(c, t, tr, r, i, s);
    assert tr[i] in r.confAddrs;
    NoneTogetherAppend(c, tr[i], tr[i + 1..], a, s);
    NoneTogetherAppend(c, t, tr[i + 1..], a, s);
  }

  /** The record after such an access. */
  ghost predicate Extended(c: Config, t: Addr, r: Record, r': Record, a: Addr)
    requires c.line > 0 && c.sets > 0
  {
    && WellKeyed(r') && r'.confAddrs == r.confAddrs + (if Recorded(c, t, a) then {a} else {})
    && (forall b :: b in r.confAddrs ==> b in r'.confConstrs && b in r.confConstrs && r'.confConstrs[b] == r.confConstrs[b])
    && (a in r'.confConstrs && a !in r.confAddrs ==>
          forall s: Assignment :: Holds(r'.confConstrs[a], s) <==> Disturbs(c, t, a, s))
    && Strengthened(c, r.uniqueConstrs, r'.uniqueConstrs, r.confAddrs, None, a)
    && Strengthened(c, r.reloads, r'.reloads, r.confAddrs, Some(t), a)
  }

  lemma {:induction false} RecordsReload(c: Config, t: Addr, r: Record, a: Addr)
    requires c.line > 0 && c.sets > 0 && Certain(c, t, a)
    requires r == EMPTY_RECORD.(confAddrs := {a}, confConstrs := map[a := Bool(true)])
    ensures Records(c, t, [a], r)
  {
    assert [a][1..] == [];
  }

  lemma {:induction false} NothingFor(r: Record, a: Addr, s: Assignment)
    requires r.uniqueConstrs.Keys <= r.confAddrs && r.reloads.Keys <= r.confAddrs && a !in r.confAddrs
    ensures AllHold(r.uniqueConstrs, a, s) && AllHold(r.reloads, a, s)
  {
  }

  // --- The formula ------------------------------------------------------------------------------

  /** `final_constraint`: a 32-bit sum of zero-extended conditions. */
  datatype Sum = Zero | Plus(rest: Sum, c: Cond)

  function EvalSum(f: Sum, s: Assignment): Word32
  {
    match f
    case Zero => 0
    case Plus(g, c) => Add32(EvalSum(g, s), if Holds(c, s) then 1 else 0)
  }

  /** All three constraints of `a` hold. */
  predicate AllThree(r: Record, a: Addr, s: Assignment)
  {
    a in r.confConstrs && Holds(r.confConstrs[a], s) && AllHold(r.uniqueConstrs, a, s) && AllHold(r.reloads, a, s)
  }

  function Satisfied(r: Record, among: set<Addr>, s: Assignment): set<Addr>
  {
    set a | a in among && AllThree(r, a, s)
  }

  /** An access adds one to the formula. */
  predicate Adds(c: Config, t: Addr, a: Addr, later: seq<Addr>, s: Assignment)
    requires c.line > 0 && c.sets > 0
  {
    Recorded(c, t, a) && Disturbs(c, t, a, s) && NoneTogether(c, a, later, s) && NoneTogether(c, t, later, s)
  }

  function Tally(c: Config, t: Addr, tr: seq<Addr>, s: Assignment): nat
    requires c.line > 0 && c.sets > 0
  {
    if tr == [] then 0 else (if Adds(c, t, tr[0], tr[1..], s) then 1 else 0) + Tally(c, t, tr[1..], s)
  }

  lemma {:induction false} TallyTail(c: Config, t: Addr, tr: seq<Addr>, p: set<Addr>, s: Assignment)
    requires c.line > 0 && c.sets > 0 && Once(c, t, tr)
    requires forall i :: 0 <= i < |tr| && Recorded(c, t, tr[i]) ==> (tr[i] in p <==> Adds(c, t, tr[i], tr[i + 1..], s))
    requires forall a :: a in p ==> a in tr && Recorded(c, t, a)
    ensures |p| == Tally(c, t, tr, s)
    decreases |tr|
  {
    hide Recorded, Disturbs, NoneTogether;
    if tr == [] {
      assert p == {};
    } else {
      var a, rest := tr[0], tr[1..];
      var p' := if Recorded(c, t, a) then p - {a} else p;
      forall i | 0 <= i < |rest| && Recorded(c, t, rest[i])
        ensures rest[i] in p' <==> Adds(c, t, rest[i], rest[i + 1..], s)
      {
        assert rest[i] == tr[i + 1] && rest[i + 1..] == tr[i + 2..];
      }
      forall b | b in p'
        ensures b in rest
      {
        assert b in tr;
      }
      TallyTail(c, t, rest, p', s);
      assert tr[1..] == rest && tr[0] == a;
    }
  }

  /** The satisfied conjunctions are the accesses that add one. */
  lemma {:induction false} FormulaCounts(c: Config, t: Addr, tr: seq<Addr>, r: Record, s: Assignment)
    requires c.line > 0 && c.sets > 0 && Records(c, t, tr, r)
    ensures |Satisfied(r, r.confAddrs, s)| == Tally(c, t, tr, s)
  {
    hide Tally, Recorded, Disturbs, NoneTogether, Holds, AllHold;
    var p := Satisfied(r, r.confAddrs, s);
    forall i | 0 <= i < |tr| && Recorded(c, t, tr[i])
      ensures tr[i] in p <==> Adds(c, t, tr[i], tr[i + 1..], s)
    {
      assert MeansAt(c, t, tr, r, i, s);
      assert tr[i] in r.confAddrs;
    }
    TallyTail(c, t, tr, p, s);
  }

  /** Then the formula counts what the three constraints count. */
  lemma {:induction false} TallyIsCount(c: Config, t: Addr, tr: seq<Addr>, s: Assignment)
    requires c.line > 0 && c.sets > 0 && Comparable(t, tr)
    ensures Tally(c, t, tr, s) == Count(c, Eval(t, s), Values(tr, s))
  {
    hide Conflicts, Reloads, Eval;
    if tr != [] {
      var xs, later := Values(tr, s), tr[1..];
      assert forall a :: a in later ==> a in tr;
      TallyIsCount(c, t, later, s);
      assert xs[1..] == Values(later, s);
      AddsIsCounts(c, t, tr, s);
    }
  }

  lemma {:induction false} AddsIsCounts(c: Config, t: Addr, tr: seq<Addr>, s: Assignment)
    requires c.line > 0 && c.sets > 0 && Comparable(t, tr) && tr != []
    ensures Adds(c, t, tr[0], tr[1..], s) <==> CountsAt(c, Eval(t, s), Values(tr, s), 0)
  {
    hide Conflicts, Reloads, Eval;
    var xs, later := Values(tr, s), tr[1..];
    assert tr[0] in tr;
    assert forall j :: 0 <= j < |later| ==> later[j] == tr[j + 1] && xs[j + 1] == Eval(later[j], s);
    if Adds(c, t, tr[0], later, s) {
      forall j | 0 < j < |xs|
        ensures !Reloads(c, xs[0], xs[j]) && !Reloads(c, Eval(t, s), xs[j])
      {
        assert !Together(c, tr[0], later[j - 1], s) && !Together(c, t, later[j - 1], s);
      }
    }
  }

  // --- A constant target ---------------------------------------------------------------------------------

  predicate AllConstant(tr: seq<Addr>)
  {
    forall i :: 0 <= i < |tr| ==> tr[i].Const?
  }

  /** Some access of the trace certainly reloads the target. */
  predicate Reloaded(c: Config, t: Addr, tr: seq<Addr>)
    requires c.line > 0 && c.sets > 0
  {
    exists i :: 0 <= i < |tr| && Certain(c, t, tr[i])
  }

  /** Only the last reload and accesses to other lines are left. */
  lemma {:induction false} KeptConstant(c: Config, t: Addr, tr: seq<Addr>)
    requires c.line > 0 && c.sets > 0 && t.Const? && AllConstant(tr)
    ensures var k := Kept(c, t, tr);
      && AllConstant(k) && (Reloaded(c, t, tr) <==> k != [] && Certain(c, t, k[0]))
      && forall i :: 0 < i < |k| ==> !Certain(c, t, k[i])
  {
    hide Certain;
    if tr != [] {
      var front, a := tr[..|tr| - 1], tr[|tr| - 1];
      assert tr == front + [a];
      KeptConstant(c, t, front);
      assert Reloaded(c, t, tr) <==> Reloaded(c, t, front) || Certain(c, t, a) by { ReloadedAppend(c, t, front, a); }
      assert a.Const?;
    }
  }

  lemma {:induction false} ReloadedAppend(c: Config, t: Addr, tr: seq<Addr>, a: Addr)
    requires c.line > 0 && c.sets > 0
    ensures Reloaded(c, t, tr + [a]) <==> Reloaded(c, t, tr) || Certain(c, t, a)
  {
    hide Certain;
    var l := tr + [a];
    assert l[|tr|] == a && forall i :: 0 <= i < |tr| ==> l[i] == tr[i];
  }

  lemma {:induction false} NothingAdds(c: Config, t: Addr, tr: seq<Addr>, s: Assignment)
    requires c.line > 0 && c.sets > 0 && t.Const? && AllConstant(tr) && forall i :: 0 <= i < |tr| ==> !Certain(c, t, tr[i])
    ensures Tally(c, t, tr, s) == 0
  {
    hide Certain, Disturbs, NoneTogether;
    if tr != [] {
      NothingAdds(c, t, tr[1..], s);
    }
  }

  /** After constants only, a constant target's formula is 1 if one of them reloaded it and 0 if none did. */
  lemma {:induction false} ConstantTally(c: Config, t: Addr, tr: seq<Addr>, s: Assignment)
    requires c.line > 0 && c.sets > 0 && t.Const? && AllConstant(tr)
    ensures Tally(c, t, Kept(c, t, tr), s) == if Reloaded(c, t, tr) then 1 else 0
  {
    KeptConstant(c, t, tr);
    var k := Kept(c, t, tr);
    hide Kept, Reloaded;
    if Reloaded(c, t, tr) {
      var later := k[1..];
      NothingAdds(c, t, later, s);
      forall j | 0 <= j < |later|
        ensures !Together(c, t, later[j], s) && !Together(c, k[0], later[j], s)
      {
        assert later[j] == k[j + 1] && !Certain(c, t, k[j + 1]);
      }
    } else {
      NothingAdds(c, t, k, s);
    }
  }

  /** Where that is what the cache does: with two or more ways, while fewer lines than ways came since the last reload;
      with one way, when a reload came and another line since, or neither. */
  predicate ConstantRight(c: Config, t: nat, xs: seq<nat>)
    requires c.line > 0 && c.sets > 0
  {
    if c.ways >= 2 then |Since(c, t, xs)| < c.ways else NoReload(c, t, xs) <==> Since(c, t, xs) == {}
  }

  lemma {:induction false} ConstantReloads(c: Config, t: Addr, tr: seq<Addr>, s: Assignment)
    requires c.line > 0 && c.sets > 0 && t.Const? && AllConstant(tr)
    ensures Reloaded(c, t, tr) <==> !NoReload(c, t.value, Values(tr, s))
  {
    hide Reloads;
    var xs := Values(tr, s);
    if Reloaded(c, t, tr) {
      var i :| 0 <= i < |tr| && Certain(c, t, tr[i]);
      assert Reloads(c, t.value, xs[i]);
    }
    if !NoReload(c, t.value, xs) {
      var i :| 0 <= i < |xs| && Reloads(c, t.value, xs[i]);
      assert Certain(c, t, tr[i]);
    }
  }

  /** For a constant target and constant accesses the formula agrees with the cache exactly then. */
  lemma {:induction false} ConstantExact(c: Config, cache: Cache, t: Addr, tr: seq<Addr>, s: Assignment)
    requires ValidConfig(c) && WellFormed(c, cache) && t.Const? && AllConstant(tr)
    ensures (Tally(c, t, Kept(c, t, tr), s) < c.ways <==> Cached(c, cache, t, tr, s))
       <==> ConstantRight(c, t.value, Values(tr, s))
  {
    hide Tally, Kept, Since, NoReload, Values, Reloaded, Contains, Run, Access;
    ConstantTally(c, t, tr, s);
    ConstantReloads(c, t, tr, s);
    StackDistance(c, cache, t.value, Values(tr, s));
    var lines := Since(c, t.value, Values(tr, s));
    assert |lines| == 0 <==> lines == {};
  }

  /** `n` constants in as many other lines of set 0. */
  function OtherLines(c: Config, n: nat): (tr: seq<Addr>)
    requires ValidConfig(c) && n < Tags(c)
    ensures |tr| == n && forall i :: 0 <= i < n ==> tr[i] == Const(Spot(c, i + 1))
  {
    seq(n, i requires 0 <= i < n => Const(Spot(c, i + 1)))
  }

  lemma {:induction false} OtherLinesSince(c: Config, n: nat, s: Assignment)
    requires ValidConfig(c) && n < Tags(c)
    ensures var xs := Values(OtherLines(c, n), s); |Since(c, Spot(c, 0), xs)| == n && NoReload(c, Spot(c, 0), xs)
  {
    var xs := Values(OtherLines(c, n), s);
    OtherLinesPlaces(c, n, s);
    SinceMembers(c, Spot(c, 0), xs);
    LinesCount(c, Spot(c, 0), n, xs);
  }

  lemma {:induction false} OtherLinesPlaces(c: Config, n: nat, s: Assignment)
    requires ValidConfig(c) && n < Tags(c)
    ensures var xs := Values(OtherLines(c, n), s);
      |xs| == n && forall i :: 0 <= i < n ==> Conflicts(c, Spot(c, 0), xs[i]) && TagOf(c, xs[i]) == i + 1
  {
    SpotPlace(c, 0);
    hide Spot, SetOf, TagOf, Tags, OtherLines;
    var xs := Values(OtherLines(c, n), s);
    forall i | 0 <= i < n
      ensures Conflicts(c, Spot(c, 0), xs[i]) && TagOf(c, xs[i]) == i + 1
    {
      SpotPlace(c, i + 1);
      assert xs[i] == Spot(c, i + 1);
    }
  }

  lemma {:induction false} LinesCount(c: Config, t: nat, n: nat, xs: seq<nat>)
    requires c.line > 0 && c.sets > 0 && |xs| == n
    requires forall i :: 0 <= i < n ==> Conflicts(c, t, xs[i]) && TagOf(c, xs[i]) == i + 1
    requires forall y :: y in Since(c, t, xs) ==> exists j :: 0 <= j < |xs| && Conflicts(c, t, xs[j]) && TagOf(c, xs[j]) == y
    requires NoReload(c, t, xs) ==> forall j :: 0 <= j < |xs| && Conflicts(c, t, xs[j]) ==> TagOf(c, xs[j]) in Since(c, t, xs)
    ensures NoReload(c, t, xs) && |Since(c, t, xs)| == n
  {
    hide Since, SetOf, TagOf;
    var lines := Since(c, t, xs);
    forall y: nat
      ensures y in lines <==> y in Below(n + 1) - {0}
    {
      if 0 < y <= n {
        assert TagOf(c, xs[y - 1]) == y;
      }
    }
    assert lines == Below(n + 1) - {0};
  }

  /** Each way the formula goes wrong: as many other lines as ways leave it at 0, and with one way a reload makes it 1. */
  lemma {:induction false} ConstantTargetWrong(c: Config, s: Assignment)
    requires ValidConfig(c) && c.ways < Tags(c)
    ensures !ConstantRight(c, Spot(c, 0), Values(OtherLines(c, c.ways), s))
    ensures c.ways == 1 ==> !ConstantRight(c, Spot(c, 0), Values([Const(Spot(c, 0))], s))
  {
    hide Since, Spot, Tags, NoReload;
    OtherLinesSince(c, c.ways, s);
    var x := Spot(c, 0);
    assert [Const(x)][1..] == [];
    assert Values([Const(x)], s) == [] + [x as nat];
    SelfReloads(c, x);
    SinceAppend(c, x, [], x);
    NoReloadAppend(c, x, [], x);
  }

  // --- Steps of handleAccess ---------------------------------------------------------------------------

  /** The loop "unique constraint" of handleAccess. */
  method AddUnique(builder: Builder, m: map<Addr, set<Cond>>, addrs: set<Addr>, a: Addr) returns (m': map<Addr, set<Cond>>)
    requires builder.Valid()
    modifies builder.sets`buffer, builder.sets`pairBuffer, builder.tags`buffer, builder.tags`pairBuffer
    ensures builder.Valid()
    ensures Strengthened(builder.cfg, m, m', addrs, None, a)
  {
    hide AllHold, Together, Holds, Tables.Valid;
    m' := m;
    var todo := addrs;
    ghost var done: set<Addr> := {};
    while todo != {}
      invariant builder.Valid() && done + todo == addrs && done !! todo
      invariant Strengthened(builder.cfg, m, m', done, None, a)
      decreases todo
    {
      var ca :| ca in todo;
      var unique, cond := builder.UniqueConstr(ca, a);
      ghost var before := m';
      if !unique {
        m' := Insert(m', ca, cond.value);
      }
      StrengthenOne(builder.cfg, m, before, m', done, None, a, ca, cond);
      todo, done := todo - {ca}, done + {ca};
    }
    assert done == addrs;
  }

  /** The loop "reload constraint" of handleAccess. */
  method AddReload(c: Config, m: map<Addr, set<Cond>>, addrs: set<Addr>, t: Addr, a: Addr, cond: Cond)
    returns (m': map<Addr, set<Cond>>)
    requires c.line > 0 && c.sets > 0
    requires forall s: Assignment :: Holds(cond, s) <==> !Together(c, t, a, s)
    ensures Strengthened(c, m, m', addrs, Some(t), a)
  {
    hide AllHold, Together, Holds;
    m' := m;
    var todo := addrs;
    ghost var done: set<Addr> := {};
    while todo != {}
      invariant done + todo == addrs && done !! todo
      invariant Strengthened(c, m, m', done, Some(t), a)
      decreases todo
    {
      var ca :| ca in todo;
      ghost var before := m';
      m' := Insert(m', ca, cond);
      StrengthenOne(c, m, before, m', done, Some(t), a, ca, Some(cond));
      todo, done := todo - {ca}, done + {ca};
    }
    assert done == addrs;
  }

  lemma {:induction false} StrengthenOne(c: Config, m: map<Addr, set<Cond>>, m1: map<Addr, set<Cond>>, m2: map<Addr, set<Cond>>,
                                         done: set<Addr>, target: Option<Addr>, a: Addr, ca: Addr, cond: Option<Cond>)
    requires c.line > 0 && c.sets > 0 && ca !in done
    requires Strengthened(c, m, m1, done, target, a)
    requires m2 == if cond.Some? then Insert(m1, ca, cond.value) else m1
    requires forall s: Assignment :: (cond.Some? ==> Holds(cond.value, s)) <==>
      !Together(c, Whose(target, ca), a, s)
    ensures Strengthened(c, m, m2, done + {ca}, target, a)
  {
    assert m1.Keys <= m2.Keys <= m1.Keys + {ca};
    hide AllHold, Holds, Together, Insert;
    forall b, s: Assignment
      ensures AllHold(m2, b, s) <==>
        AllHold(m, b, s) && (b in done + {ca} ==> !Together(c, Whose(target, b), a, s))
    {
      if cond.Some? {
        InsertHolds(m1, ca, cond.value, b, s);
      }
    }
  }

  lemma {:induction false} StrengthenedKeys(c: Config, m: map<Addr, set<Cond>>, m': map<Addr, set<Cond>>,
                                            done: set<Addr>, target: Option<Addr>, a: Addr)
    requires c.line > 0 && c.sets > 0 && Strengthened(c, m, m', done, target, a) && m.Keys <= done
    ensures m'.Keys <= done
  {
  }

  /** AndExpr::create over a set of constraints. */
  method Conjunction(ks: set<Cond>) returns (c: Cond)
    ensures forall s: Assignment :: Holds(c, s) <==> forall k :: k in ks ==> Holds(k, s)
  {
    c := Bool(true);
    var todo := ks;
    ghost var done: set<Cond> := {};
    while todo != {}
      invariant done + todo == ks && done !! todo
      invariant forall s: Assignment :: Holds(c, s) <==> forall k :: k in done ==> Holds(k, s)
      decreases todo
    {
      var k :| k in todo;
      ghost var before, earlier := c, done;
      c := Both(c, k);
      todo, done := todo - {k}, done + {k};
      forall s: Assignment
        ensures Holds(c, s) <==> forall k' :: k' in done ==> Holds(k', s)
      {
        ConjoinOne(before, k, earlier, s);
      }
    }
    assert done == ks;
  }

  lemma {:induction false} ConjoinOne(c: Cond, k: Cond, done: set<Cond>, s: Assignment)
    requires Holds(c, s) <==> forall k' :: k' in done ==> Holds(k', s)
    ensures Holds(Both(c, k), s) <==> forall k' :: k' in done + {k} ==> Holds(k', s)
  {
    assert Holds(Both(c, k), s) <==> Holds(c, s) && Holds(k, s);
    hide Holds;
  }

  lemma {:induction false} NoneSatisfied(r: Record)
    ensures forall s: Assignment :: EvalSum(Zero, s) == |Satisfied(r, {}, s)| % W32
  {
    forall s: Assignment
      ensures Satisfied(r, {}, s) == {}
    {
    }
  }

  lemma {:induction false} AddOne(r: Record, done: set<Addr>, a: Addr, u: Cond, v: Cond, f: Sum, s: Assignment)
    requires a in r.confConstrs && a !in done
    requires Holds(u, s) <==> AllHold(r.uniqueConstrs, a, s)
    requires Holds(v, s) <==> AllHold(r.reloads, a, s)
    requires EvalSum(f, s) == |Satisfied(r, done, s)| % W32
    ensures EvalSum(Plus(f, Both(Both(r.confConstrs[a], u), v)), s) == |Satisfied(r, done + {a}, s)| % W32
  {
    hide AllThree, Holds, AllHold, Add32;
    ThreeHold(r, a, u, v, s);
    var p := Satisfied(r, done, s);
    SumStep(|p|);
    if AllThree(r, a, s) {
      assert Satisfied(r, done + {a}, s) == p + {a};
    } else {
      assert Satisfied(r, done + {a}, s) == p;
    }
  }

  lemma {:induction false} SumStep(n: nat)
    ensures Add32(n % W32, 0) == n % W32 && Add32(n % W32, 1) == (n + 1) % W32
  {
  }

  lemma {:induction false} ThreeHold(r: Record, a: Addr, u: Cond, v: Cond, s: Assignment)
    requires a in r.confConstrs
    requires Holds(u, s) <==> AllHold(r.uniqueConstrs, a, s)
    requires Holds(v, s) <==> AllHold(r.reloads, a, s)
    ensures Holds(Both(Both(r.confConstrs[a], u), v), s) <==> AllThree(r, a, s)
  {
    hide AllHold;
    assert Holds(Both(r.confConstrs[a], u), s) <==> Holds(r.confConstrs[a], s) && Holds(u, s);
  }

  /** The constraints handleAccess adds for an address not yet recorded. */
  method ExtendRecord(builder: Builder, t: Addr, r: Record, a: Addr) returns (r': Record)
    requires builder.Valid() && WellKeyed(r) && a !in r.confAddrs
    modifies builder.sets`buffer, builder.sets`pairBuffer, builder.tags`buffer, builder.tags`pairBuffer
    ensures builder.Valid()
    ensures if Certain(builder.cfg, t, a) then r' == EMPTY_RECORD.(confAddrs := {a}, confConstrs := map[a := Bool(true)])
            else Extended(builder.cfg, t, r, r', a)
  {
    hide Strengthened, Conflicts, Reloads, Together, Holds, Eval, Tables.Valid;
    var unique := AddUnique(builder, r.uniqueConstrs, r.confAddrs, a);
    StrengthenedKeys(builder.cfg, r.uniqueConstrs, unique, r.confAddrs, None, a);
    var reload, notReload := builder.ReloadConstr(t, a);
    if reload {
      // the target is certainly reloaded: all records go
      r' := EMPTY_RECORD;
    } else {
      var rel := AddReload(builder.cfg, r.reloads, r.confAddrs, t, a, notReload);
      StrengthenedKeys(builder.cfg, r.reloads, rel, r.confAddrs, Some(t), a);
      r' := r.(uniqueConstrs := unique, reloads := rel);
    }
    var possible, conflict := builder.ConflictConstr(t, a);
    if possible {
      r' := r'.(confAddrs := r'.confAddrs + {a}, confConstrs := r'.confConstrs[a := conflict]);
    }
  }

  // --- The target object ---------------------------------------------------------------------------

  class Target {
    const addr: Addr
    const builder: Builder
    const ccstate: Recorder
    var confAddrs: set<Addr>
    var confConstrs: map<Addr, Cond>
    var uniqueConstrs: map<Addr, set<Cond>>
    var reloads: map<Addr, set<Cond>>
    ghost var trace: seq<Addr>   // every access since the target's own

    function Rec(): Record
      reads this
    {
      Record(confAddrs, confConstrs, uniqueConstrs, reloads)
    }

    ghost predicate Valid()
      reads this, builder, builder.sets, builder.tags, ccstate
    {
      && builder.Valid() && ccstate.Valid() && ccstate.cfg == builder.cfg && ccstate.trace == trace && !ccstate.IsFull()
      && Records(builder.cfg, addr, Kept(builder.cfg, addr, trace), Rec())
    }

    /** A new sensitive address, as handleAccess inserts it. */
    constructor (addr: Addr, builder: Builder)
      requires builder.Valid() && builder.cfg.sets <= CACHE_SET_SIZE
      ensures Valid() && this.addr == addr && this.builder == builder && fresh(ccstate) && trace == []
    {
      this.addr, this.builder := addr, builder;
      ccstate := new Recorder(builder.cfg);
      confAddrs, confConstrs, uniqueConstrs, reloads := {}, map[], map[], map[];
      trace := [];
    }

    /** handleAccess for this target; `evicted` is the constant-eviction shortcut,
        after which the target is dropped. */
    method HandleAccess(a: Addr) returns (evicted: bool)
      requires Valid()
      modifies this, ccstate
      modifies builder.sets`buffer, builder.sets`pairBuffer, builder.tags`buffer, builder.tags`pairBuffer
      ensures trace == old(trace) + [a]
      ensures evicted <==> Full(builder.cfg, trace)
      ensures !evicted ==> Valid()
      ensures evicted ==> !Full(builder.cfg, old(trace)) && ShortcutMeans(builder.cfg, addr, trace)
    {
      hide Records, Kept, Full, ShortcutMeans, Eval, FromTrace, NotFull, Extended, Holds, Recorded, Certain, Tables.Valid;
      trace := trace + [a];
      FullIs(builder.cfg, ccstate.ccState, old(trace));
      ccstate.Access(a);
      FullIs(builder.cfg, ccstate.ccState, trace);
      if ccstate.IsFull() {
        Shortcut(builder.cfg, addr, old(trace), a);
        return true;
      }
      KeptAppend(builder.cfg, addr, old(trace), a);
      ghost var kept, r := Kept(builder.cfg, addr, old(trace)), Rec();
      RecordedElems(builder.cfg, addr, kept, r, a);
      if a in confAddrs {
        return false;
      }
      var r' := ExtendRecord(builder, addr, Rec(), a);
      confAddrs, confConstrs, uniqueConstrs, reloads := r'.confAddrs, r'.confConstrs, r'.uniqueConstrs, r'.reloads;
      if Certain(builder.cfg, addr, a) {
        RecordsReload(builder.cfg, addr, r', a);
      } else {
        RecordsAppend(builder.cfg, addr, kept, r, r', a);
      }
      return false;
    }

    /** verifyCacheSideChannel: the 32-bit sum of the recorded constraints. */
    method Formula() returns (f: Sum)
      requires Valid()
      ensures forall s: Assignment :: EvalSum(f, s) == Tally(builder.cfg, addr, Kept(builder.cfg, addr, trace), s) % W32
    {
      hide Holds, Records, Kept, Recorder.Valid, Tables.Valid, Stored, AllThree, Satisfied, EvalSum, Tally;
      RecordedElems(builder.cfg, addr, Kept(builder.cfg, addr, trace), Rec(), addr);
      f := Zero;
      var todo := confAddrs;
      ghost var r, done := Rec(), {};
      NoneSatisfied(r);
      while todo != {}
        invariant done + todo == confAddrs && done !! todo
        invariant forall s: Assignment :: EvalSum(f, s) == |Satisfied(r, done, s)| % W32
        decreases todo
      {
        var a :| a in todo;
        var u := Conjunction(Stored(uniqueConstrs, a));
        var v := Conjunction(Stored(reloads, a));
        var g := Plus(f, Both(Both(confConstrs[a], u), v));
        forall s: Assignment
          ensures EvalSum(g, s) == |Satisfied(r, done + {a}, s)| % W32
        {
          AddOne(r, done, a, u, v, f, s);
        }
        f, todo, done := g, todo - {a}, done + {a};
      }
      assert done == confAddrs;
      forall s: Assignment
        ensures |Satisfied(r, confAddrs, s)| == Tally(builder.cfg, addr, Kept(builder.cfg, addr, trace), s)
      {
        FormulaCounts(builder.cfg, addr, Kept(builder.cfg, addr, trace), r, s);
      }
    }
  }

  lemma {:induction false} RecordedElems(c: Config, t: Addr, kept: seq<Addr>, r: Record, a: Addr)
    requires c.line > 0 && c.sets > 0 && Records(c, t, kept, r)
    ensures WellKeyed(r) && (a in r.confAddrs <==> a in kept && Recorded(c, t, a))
  {
    hide MeansAt;
  }

  lemma {:induction false} TallyIsVerdict(c: Config, t: Addr, tr: seq<Addr>, s: Assignment)
    requires c.line > 0 && c.sets > 0 && Comparable(t, tr)
    ensures Tally(c, t, Kept(c, t, tr), s) % W32 < c.ways <==> Verdict(c, t, tr, s)
  {
    hide Tally, Kept, KeepFirst, Count, Values, Eval;
    KeptIsKeepFirst(c, t, tr);
    KeepFirstElems(tr);
    TallyIsCount(c, t, KeepFirst(tr), s);
  }

  // --- A whole run -----------------------------------------------------------------------------------

  datatype Outcome = ConstantEviction(at: nat) | Ask(formula: Sum)

  /** The formula agrees with the cache. */
  ghost predicate Right(c: Config, t: Addr, tr: seq<Addr>, f: Sum)
    requires ValidConfig(c)
  {
    forall cache: Cache, s: Assignment | WellFormed(c, cache) :: EvalSum(f, s) < c.ways <==> Cached(c, cache, t, tr, s)
  }

  /** A sensitive access to `t`, then the accesses of `tr`, then the formula. For a symbolic target the formula agrees
      with the cache on harmless traces and, among symbolic ones, on no others; for a constant target and constant
      accesses the exact condition is `ConstantRight`. The shortcut is taken at the first access after which every set has
      constants in as many lines as ways; `ShortcutMeans` says when it is right. */
  method Analyse(c: Config, t: Addr, tr: seq<Addr>) returns (r: Outcome)
    requires ValidConfig(c) && c.sets <= CACHE_SET_SIZE && |tr| < W32
    ensures r.Ask? ==> forall s: Assignment :: EvalSum(r.formula, s) == Tally(c, t, Kept(c, t, tr), s) % W32
    ensures r.Ask? && Comparable(t, tr) && Harmless(c, t, tr) ==> Right(c, t, tr, r.formula)
    ensures r.Ask? && Symbolic(tr) ==> (Right(c, t, tr, r.formula) <==> Harmless(c, t, tr))
    ensures r.Ask? && t.Const? && AllConstant(tr) ==>
      forall cache, s: Assignment | WellFormed(c, cache) ::
        (EvalSum(r.formula, s) < c.ways <==> Cached(c, cache, t, tr, s)) <==> ConstantRight(c, t.value, Values(tr, s))
    ensures r.ConstantEviction? <==> Full(c, tr)
    ensures r.ConstantEviction? ==> 0 < r.at <= |tr| && Full(c, tr[..r.at]) && !Full(c, tr[..r.at - 1])
    ensures r.ConstantEviction? ==> ShortcutMeans(c, t, tr[..r.at])
  {
    hide Right, Harmless, Symbolic, ConstantRight, Cached, WellFormed, Values, Eval, Full, ShortcutMeans;
    hide Kept, Tally, EvalSum, Records, Tables.Valid, Recorder.Valid, AllConstant;
    var builder := new Builder(c);
    var target := new Target(t, builder);
    NotFullAtStart(c);
    assert tr[..0] == [];
    for i := 0 to |tr|
      invariant target.Valid() && target.trace == tr[..i] && target.addr == t && target.builder == builder
      invariant !Full(c, tr[..i])
      invariant fresh(target.ccstate) && fresh(builder.sets) && fresh(builder.tags)
    {
      var evicted := target.HandleAccess(tr[i]);
      assert tr[..i + 1] == tr[..i] + [tr[i]];
      if evicted {
        FullPrefix(c, tr, i + 1);
        return ConstantEviction(i + 1);
      }
    }
    assert tr[..|tr|] == tr;
    var f := target.Formula();
    RightIfExact(c, t, tr, f);
    ConstantFormula(c, t, tr, f);
    return Ask(f);
  }

  lemma {:induction false} RightIfExact(c: Config, t: Addr, tr: seq<Addr>, f: Sum)
    requires ValidConfig(c) && |tr| < W32
    requires forall s: Assignment :: EvalSum(f, s) == Tally(c, t, Kept(c, t, tr), s) % W32
    ensures Comparable(t, tr) && Harmless(c, t, tr) ==> Right(c, t, tr, f)
    ensures Symbolic(tr) ==> (Right(c, t, tr, f) <==> Harmless(c, t, tr))
  {
    hide EvalSum, Tally, Kept, Harmless, Verdict, Cached, WellFormed, Symbolic;
    if Comparable(t, tr) {
      forall s: Assignment
        ensures EvalSum(f, s) < c.ways <==> Verdict(c, t, tr, s)
      {
        TallyIsVerdict(c, t, tr, s);
      }
      RightIsExact(c, t, tr, f);
      if Harmless(c, t, tr) {
        ExactIfHarmless(c, t, tr);
      }
      if Symbolic(tr) {
        ExactOnlyIfHarmless(c, t, tr);
      }
    }
  }

  lemma {:induction false} RightIsExact(c: Config, t: Addr, tr: seq<Addr>, f: Sum)
    requires ValidConfig(c) && forall s: Assignment :: EvalSum(f, s) < c.ways <==> Verdict(c, t, tr, s)
    ensures Right(c, t, tr, f) <==> Exact(c, t, tr)
  {
    hide EvalSum, Verdict, Cached;
  }

  lemma {:induction false} ConstantFormula(c: Config, t: Addr, tr: seq<Addr>, f: Sum)
    requires ValidConfig(c)
    requires forall s: Assignment :: EvalSum(f, s) == Tally(c, t, Kept(c, t, tr), s) % W32
    ensures t.Const? && AllConstant(tr) ==>
      forall cache, s: Assignment | WellFormed(c, cache) ::
        (EvalSum(f, s) < c.ways <==> Cached(c, cache, t, tr, s)) <==> ConstantRight(c, t.value, Values(tr, s))
  {
    hide EvalSum, Tally, Kept, Cached, WellFormed, ConstantRight, Values, AllConstant;
    if t.Const? && AllConstant(tr) {
      forall cache, s: Assignment | WellFormed(c, cache)
        ensures |cache| == c.sets
        ensures (EvalSum(f, s) < c.ways <==> Cached(c, cache, t, tr, s)) <==> ConstantRight(c, t.value, Values(tr, s))
      {
        WellFormedSize(c, cache);
        ConstantTally(c, t, tr, s);
        ConstantExact(c, cache, t, tr, s);
      }
    }
  }
}
