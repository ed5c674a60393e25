/** Pointer resolution of AddressSpace.cpp. The solver is an oracle over the
    nonempty set of feasible addresses of the pointer; any query may fail. */
module PointerResolution {
  import opened Options

  const SPACE: nat := 0x1_0000_0000_0000_0000

  datatype MemoryObject = MemoryObject(address: nat, size: nat)

  /** Bytes an object occupies; an object of size 0 still has an address. */
  function Extent(mo: MemoryObject): nat
  {
    if mo.size == 0 then 1 else mo.size
  }

  function End(mo: MemoryObject): nat
  {
    mo.address + Extent(mo)
  }

  /** The map orders objects by address and the allocator keeps them apart. */
  predicate Disjoint(objs: seq<MemoryObject>)
  {
    && (forall i :: 0 <= i < |objs| ==> End(objs[i]) <= SPACE)
    && (forall i, j :: 0 <= i < j < |objs| ==> End(objs[i]) <= objs[j].address)
  }

  /** getBoundsCheckPointer, with the offset in 64-bit arithmetic. */
  predicate InBounds(mo: MemoryObject, p: nat)
  {
    var offset := (p - mo.address) % SPACE;
    if mo.size == 0 then offset == 0 else offset < mo.size
  }

  lemma {:induction false} InBoundsIs(mo: MemoryObject, p: nat)
    requires End(mo) <= SPACE && p < SPACE
    ensures InBounds(mo, p) <==> mo.address <= p < End(mo)
  {
  }

  predicate Feasible(f: set<nat>)
  {
    f != {} && forall p :: p in f ==> p < SPACE
  }

  /** Some feasible address falls in the object. */
  predicate Reaches(f: set<nat>, mo: MemoryObject)
  {
    exists p :: p in f && InBounds(mo, p)
  }

  // --- The solver -------------------------------------------------------------------
  // A solver that is not reliable may fail at any query.

  datatype Query = Within(mo: MemoryObject) | AtLeast(base: nat) | Below(base: nat)

  predicate Answer(q: Query, p: nat)
  {
    match q
    case Within(mo) => InBounds(mo, p)
    case AtLeast(base) => p >= base
    case Below(base) => p < base
  }

  method GetValue(f: set<nat>, reliable: bool) returns (value: Option<nat>)
    requires Feasible(f)
    ensures reliable ==> value.Some?
    ensures value.Some? ==> value.value in f
  {
    var fails: bool := *;
    if !reliable && fails {
      return None;
    }
    var p :| p in f;
    return Some(p);
  }

  method MayBeTrue(f: set<nat>, q: Query, reliable: bool) returns (r: Option<bool>)
    ensures reliable ==> r.Some?
    ensures r.Some? ==> (r.value <==> exists p :: p in f && Answer(q, p))
  {
    var fails: bool := *;
    if !reliable && fails {
      return None;
    }
    return Some(exists p :: p in f && Answer(q, p));
  }

  method MustBeTrue(f: set<nat>, q: Query, reliable: bool) returns (r: Option<bool>)
    ensures reliable ==> r.Some?
    ensures r.Some? ==> (r.value <==> forall p :: p in f ==> Answer(q, p))
  {
    var fails: bool := *;
    if !reliable && fails {
      return None;
    }
    return Some(forall p :: p in f ==> Answer(q, p));
  }

  // --- The map ------------------------------------------------------------------------

  /** upper_bound: the number of objects at or below address `a`. */
  function UpperBound(objs: seq<MemoryObject>, a: nat): (k: nat)
    requires Disjoint(objs)
    ensures k <= |objs|
    ensures forall i :: 0 <= i < k ==> objs[i].address <= a
    ensures forall i :: k <= i < |objs| ==> objs[i].address > a
  {
    if objs == [] then 0
    else if objs[|objs| - 1].address <= a then |objs|
    else UpperBound(objs[..|objs| - 1], a)
  }

  /** An address lies in at most one object. */
  lemma {:induction false} Unique(objs: seq<MemoryObject>, i: nat, j: nat, p: nat)
    requires Disjoint(objs) && i < |objs| && j < |objs| && p < SPACE
    requires InBounds(objs[i], p) && InBounds(objs[j], p)
    ensures i == j
  {
    InBoundsIs(objs[i], p);
    InBoundsIs(objs[j], p);
  }

  /** resolveOne on a constant address: lookup_previous and a bounds check. */
  method ResolveConstant(objs: seq<MemoryObject>, address: nat) returns (r: Option<nat>)
    requires Disjoint(objs) && address < SPACE
    ensures r.Some? ==> r.value < |objs| && InBounds(objs[r.value], address)
    ensures r.None? ==> forall i :: 0 <= i < |objs| ==> !InBounds(objs[i], address)
  {
    hide UpperBound, InBounds;
    var k := UpperBound(objs, address);
    if k > 0 {
      var mo := objs[k - 1];
      InBoundsIs(mo, address);
      if (mo.size == 0 && address == mo.address) || (address - mo.address) % SPACE < mo.size {
        return Some(k - 1);
      }
    }
    forall i | 0 <= i < |objs|
      ensures !InBounds(objs[i], address)
    {
      InBoundsIs(objs[i], address);
      assert i + 1 < k ==> End(objs[i]) <= objs[k - 1].address;
    }
    return None;
  }

  // --- Early exits ----------------------------------------------------------------------

  /** Everything below an object all feasible addresses are at or above. */
  lemma {:induction false} NoneBelow(objs: seq<MemoryObject>, f: set<nat>, k: nat)
    requires Disjoint(objs) && Feasible(f) && k < |objs| && forall p :: p in f ==> p >= objs[k].address
    ensures forall i :: 0 <= i < k ==> !Reaches(f, objs[i])
  {
    hide InBounds;
    forall i, p | 0 <= i < k && p in f
      ensures !InBounds(objs[i], p)
    {
      InBoundsIs(objs[i], p);
      assert End(objs[i]) <= objs[k].address;
    }
  }

  /** Everything from an object on that all feasible addresses are below. */
  lemma {:induction false} NoneAbove(objs: seq<MemoryObject>, f: set<nat>, k: nat)
    requires Disjoint(objs) && Feasible(f) && k < |objs| && forall p :: p in f ==> p < objs[k].address
    ensures forall i :: k <= i < |objs| ==> !Reaches(f, objs[i])
  {
    hide InBounds;
    forall i, p | k <= i < |objs| && p in f
      ensures !InBounds(objs[i], p)
    {
      InBoundsIs(objs[i], p);
      assert k < i ==> End(objs[k]) <= objs[i].address;
    }
  }

  /** If the pointer must be in one object it can be in no other. */
  lemma {:induction false} OnlyOne(objs: seq<MemoryObject>, f: set<nat>, k: nat)
    requires Disjoint(objs) && Feasible(f) && k < |objs| && forall p :: p in f ==> InBounds(objs[k], p)
    ensures Reaches(f, objs[k]) && forall i :: 0 <= i < |objs| && i != k ==> !Reaches(f, objs[i])
  {
    hide InBounds;
    var q :| q in f;
    assert InBounds(objs[k], q);
    forall i, p | 0 <= i < |objs| && i != k && p in f
      ensures !InBounds(objs[i], p)
    {
      if InBounds(objs[i], p) {
        Unique(objs, i, k, p);
      }
    }
  }

  // --- resolveOne -------------------------------------------------------------------------

  datatype Found = Failed | NotFound | Object(index: nat)

  /** resolveOne on a symbolic address: a cheap guess, then a search outward. */
  method ResolveOne(objs: seq<MemoryObject>, f: set<nat>, reliable: bool) returns (r: Found)
    requires Disjoint(objs) && Feasible(f)
    ensures reliable ==> !r.Failed?
    ensures r.Object? ==> r.index < |objs| && Reaches(f, objs[r.index])
    ensures r.NotFound? ==> forall i :: 0 <= i < |objs| ==> !Reaches(f, objs[i])
  {
    hide UpperBound, InBounds, Disjoint, Feasible;
    var v := GetValue(f, reliable);
    if v.None? {
      return Failed;
    }
    var start := UpperBound(objs, v.value);
    if start > 0 {
      var mo := objs[start - 1];
      if (v.value - mo.address) % SPACE < mo.size {
        Guess(mo, v.value);
        return Object(start - 1);
      }
    }
    r := SearchDown(objs, f, start, reliable);
    if r == NotFound {
      r := SearchUp(objs, f, start, reliable);
    }
  }

  lemma {:induction false} Guess(mo: MemoryObject, p: nat)
    requires (p - mo.address) % SPACE < mo.size
    ensures InBounds(mo, p)
  {
  }

  method SearchDown(objs: seq<MemoryObject>, f: set<nat>, start: nat, reliable: bool) returns (r: Found)
    requires Disjoint(objs) && Feasible(f) && start <= |objs|
    ensures reliable ==> !r.Failed?
    ensures r.Object? ==> r.index < |objs| && Reaches(f, objs[r.index])
    ensures r.NotFound? ==> forall i :: 0 <= i < start ==> !Reaches(f, objs[i])
  {
    hide InBounds, Disjoint, Feasible;
    var oi := start;
    while oi != 0
      invariant 0 <= oi <= start
      invariant forall i :: oi <= i < start ==> !Reaches(f, objs[i])
    {
      oi := oi - 1;
      var may := MayBeTrue(f, Within(objs[oi]), reliable);
      if may.None? {
        return Failed;
      }
      if may.value {
        return Object(oi);
      }
      var must := MustBeTrue(f, AtLeast(objs[oi].address), reliable);
      if must.None? {
        return Failed;
      }
      if must.value {
        assert forall p :: p in f ==> Answer(AtLeast(objs[oi].address), p);
        NoneBelow(objs, f, oi);
        return NotFound;
      }
    }
    return NotFound;
  }

  method SearchUp(objs: seq<MemoryObject>, f: set<nat>, start: nat, reliable: bool) returns (r: Found)
    requires Disjoint(objs) && Feasible(f) && start <= |objs|
    ensures reliable ==> !r.Failed?
    ensures r.Object? ==> r.index < |objs| && Reaches(f, objs[r.index])
    ensures r.NotFound? ==> forall i :: start <= i < |objs| ==> !Reaches(f, objs[i])
  {
    hide InBounds, Disjoint, Feasible;
    var oi := start;
    while oi != |objs|
      invariant start <= oi <= |objs|
      invariant forall i :: start <= i < oi ==> !Reaches(f, objs[i])
    {
      var must := MustBeTrue(f, Below(objs[oi].address), reliable);
      if must.None? {
        return Failed;
      }
      if must.value {
        assert forall p :: p in f ==> Answer(Below(objs[oi].address), p);
        NoneAbove(objs, f, oi);
        return NotFound;
      }
      var may := MayBeTrue(f, Within(objs[oi]), reliable);
      if may.None? {
        return Failed;
      }
      if may.value {
        return Object(oi);
      }
      oi := oi + 1;
    }
    return NotFound;
  }

  // --- resolve ----------------------------------------------------------------------------

  /** The pointer argument: `resolve` treats constants separately. */
  datatype Pointer = Constant(address: nat) | Symbolic(feasible: set<nat>)

  function Addresses(p: Pointer): set<nat>
  {
    match p
    case Constant(a) => {a}
    case Symbolic(f) => f
  }

  /** `rl` lists, without repetition, objects in [lo, hi) the pointer can reach. */
  predicate Lists(objs: seq<MemoryObject>, f: set<nat>, rl: seq<nat>, lo: nat, hi: nat)
  {
    && (forall i, j :: 0 <= i < j < |rl| ==> rl[i] != rl[j])
    && (forall k :: k in rl ==> lo <= k < hi <= |objs| && Reaches(f, objs[k]))
  }

  /** `rl` lists all of them. */
  predicate ListsAll(objs: seq<MemoryObject>, f: set<nat>, rl: seq<nat>, lo: nat, hi: nat)
  {
    && hi <= |objs|
    && Lists(objs, f, rl, lo, hi)
    && forall k :: lo <= k < hi && Reaches(f, objs[k]) ==> k in rl
  }

  datatype Check = Complete | Incomplete | Continue

  /** checkPointerInObject. `broke` tells that a query failed. */
  method CheckPointerInObject(objs: seq<MemoryObject>, f: set<nat>, k: nat, rl: seq<nat>, maxResolutions: nat, reliable: bool)
    returns (c: Check, rl': seq<nat>, broke: bool)
    requires k < |objs|
    ensures rl' == rl || (rl' == rl + [k] && Reaches(f, objs[k]))
    ensures c == Continue ==> (k in rl' <==> k in rl || Reaches(f, objs[k]))
    ensures c == Continue ==> !(|rl'| >= 2 && |rl'| == maxResolutions && rl' != rl)
    ensures c == Complete ==> rl' == [k] && forall p :: p in f ==> InBounds(objs[k], p)
    ensures c == Incomplete ==> broke || (|rl'| == maxResolutions >= 2 && rl' == rl + [k])
    ensures broke ==> c == Incomplete
    ensures reliable ==> !broke
  {
    hide InBounds;
    broke := false;
    rl' := rl;
    var may := MayBeTrue(f, Within(objs[k]), reliable);
    if may.None? {
      return Incomplete, rl', true;
    }
    if may.value {
      rl' := rl + [k];
      if |rl'| == 1 {
        var must := MustBeTrue(f, Within(objs[k]), reliable);
        if must.None? {
          return Incomplete, rl', true;
        }
        if must.value {
          assert forall p :: p in f ==> Answer(Within(objs[k]), p);
          return Complete, rl', broke;
        }
      } else if |rl'| == maxResolutions {
        return Incomplete, rl', broke;
      }
    }
    return Continue, rl', broke;
  }

  /** AddressSpace::resolve with an empty list. If it reports completeness, the list is exactly the objects some feasible
      address falls in, each once; otherwise it is a part of them. With a reliable solver and no time limit it is
      incomplete exactly when the limit is at least 2 and as many objects can be reached. A limit of 0 or 1 is no limit,
      so that a limit of 1 is kept exactly when at most one object can be reached. */
  method Resolve(objs: seq<MemoryObject>, p: Pointer, maxResolutions: nat, timed: bool, reliable: bool)
    returns (incomplete: bool, rl: seq<nat>, broke: bool)
    requires Disjoint(objs) && Feasible(Addresses(p))
    ensures !incomplete ==> ListsAll(objs, Addresses(p), rl, 0, |objs|)
    ensures incomplete ==> Lists(objs, Addresses(p), rl, 0, |objs|)
    ensures broke ==> incomplete
    ensures incomplete ==> broke || (maxResolutions >= 2 && |rl| == maxResolutions)
    ensures reliable && !timed ==> !broke
    ensures maxResolutions >= 2 ==> |rl| <= maxResolutions && (!incomplete ==> |rl| < maxResolutions)
    ensures reliable && !timed ==>
      (incomplete <==> maxResolutions >= 2 && |ReachableObjects(objs, Addresses(p))| >= maxResolutions)
    ensures maxResolutions == 1 && reliable && !timed ==> (|rl| <= 1 <==> AtMostOne(objs, Addresses(p)))
  {
    hide InBounds, Disjoint, Feasible, UpperBound, AtMostOne, ReachableObjects, ListsAll;
    broke := false;
    if p.Constant? {
      AddressInRange(p.address);
      var r := ResolveConstant(objs, p.address);
      rl := if r.Some? then [r.value] else [];
      ConstantExact(objs, p.address, r);
      ListSize(objs, Addresses(p), rl);
      LimitOfOne(objs, Addresses(p), rl);
      return false, rl, broke;
    }
    var f := p.feasible;
    rl := [];
    var v := GetValue(f, reliable);
    if v.None? {
      return true, rl, true;
    }
    var start := UpperBound(objs, v.value);
    var done: Check;
    done, rl, broke := CollectDown(objs, f, start, maxResolutions, timed, reliable);
    if done == Continue {
      done, rl, broke := CollectUp(objs, f, start, rl, maxResolutions, timed, reliable);
    }
    incomplete := done == Incomplete;
    PartSize(objs, f, rl);
    if !incomplete {
      ListSize(objs, f, rl);
      LimitOfOne(objs, f, rl);
    }
  }

  lemma {:induction false} AddressInRange(a: nat)
    requires Feasible({a})
    ensures a < SPACE
  {
  }

  lemma {:induction false} ConstantExact(objs: seq<MemoryObject>, a: nat, r: Option<nat>)
    requires Disjoint(objs) && a < SPACE
    requires r.Some? ==> r.value < |objs| && InBounds(objs[r.value], a)
    requires r.None? ==> forall i :: 0 <= i < |objs| ==> !InBounds(objs[i], a)
    ensures ListsAll(objs, {a}, if r.Some? then [r.value] else [], 0, |objs|)
  {
    hide InBounds, Disjoint;
    if r.Some? {
      assert a in {a};
      forall i | 0 <= i < |objs| && InBounds(objs[i], a)
        ensures i == r.value
      {
        Unique(objs, i, r.value, a);
      }
    }
  }

  /** The backward loop: objects below `start`, nearest first. */
  method CollectDown(objs: seq<MemoryObject>, f: set<nat>, start: nat, maxResolutions: nat, timed: bool, reliable: bool)
    returns (done: Check, rl: seq<nat>, broke: bool)
    requires Disjoint(objs) && Feasible(f) && start <= |objs|
    ensures done == Complete ==> ListsAll(objs, f, rl, 0, |objs|)
    ensures done == Continue ==> ListsAll(objs, f, rl, 0, start)
    ensures done == Incomplete ==> Lists(objs, f, rl, 0, |objs|)
    ensures reliable && !timed ==> !broke
    ensures broke ==> done == Incomplete
    ensures done == Incomplete ==> broke || (maxResolutions >= 2 && |rl| == maxResolutions)
    ensures maxResolutions >= 2 ==> |rl| <= maxResolutions && (done != Incomplete ==> |rl| < maxResolutions)
  {
    hide InBounds, Disjoint, Feasible;
    rl, broke := [], false;
    var oi := start;
    while oi != 0
      invariant 0 <= oi <= start && ListsAll(objs, f, rl, oi, start)
      invariant maxResolutions >= 2 ==> |rl| < maxResolutions
      invariant !broke
    {
      oi := oi - 1;
      var expired: bool := *;
      if timed && expired {
        return Incomplete, rl, true;
      }
      ghost var before := rl;
      var c;
      c, rl, broke := CheckPointerInObject(objs, f, oi, rl, maxResolutions, reliable);
      Appended(objs, f, before, rl, oi, oi + 1, start);
      if c == Complete {
        OnlyOne(objs, f, oi);
        return Complete, rl, broke;
      }
      if c == Incomplete {
        return Incomplete, rl, broke;
      }
      var must := MustBeTrue(f, AtLeast(objs[oi].address), reliable);
      if must.None? {
        return Incomplete, rl, true;
      }
      if must.value {
        assert forall p :: p in f ==> Answer(AtLeast(objs[oi].address), p);
        NoneBelow(objs, f, oi);
        return Continue, rl, broke;
      }
    }
    return Continue, rl, broke;
  }

  lemma {:induction false} Appended(objs: seq<MemoryObject>, f: set<nat>, rl: seq<nat>, rl': seq<nat>, k: nat, lo: nat, hi: nat)
    requires lo <= hi <= |objs| && Lists(objs, f, rl, lo, hi) && (k + 1 == lo || k == hi < |objs|)
    requires rl' == rl || (rl' == rl + [k] && Reaches(f, objs[k]))
    ensures k + 1 == lo ==> Lists(objs, f, rl', k, hi)
    ensures k == hi ==> Lists(objs, f, rl', lo, k + 1)
  {
    hide Reaches;
  }

  /** The forward loop: objects from `start` on. */
  method CollectUp(objs: seq<MemoryObject>, f: set<nat>, start: nat, rl0: seq<nat>, maxResolutions: nat, timed: bool,
                   reliable: bool)
    returns (done: Check, rl: seq<nat>, broke: bool)
    requires Disjoint(objs) && Feasible(f) && start <= |objs| && ListsAll(objs, f, rl0, 0, start)
    requires maxResolutions >= 2 ==> |rl0| < maxResolutions
    ensures done != Incomplete ==> ListsAll(objs, f, rl, 0, |objs|)
    ensures done == Incomplete ==> Lists(objs, f, rl, 0, |objs|)
    ensures reliable && !timed ==> !broke
    ensures broke ==> done == Incomplete
    ensures done == Incomplete ==> broke || (maxResolutions >= 2 && |rl| == maxResolutions)
    ensures maxResolutions >= 2 ==> |rl| <= maxResolutions && (done != Incomplete ==> |rl| < maxResolutions)
  {
    hide InBounds, Disjoint, Feasible;
    rl, broke := rl0, false;
    var oi := start;
    while oi != |objs|
      invariant start <= oi <= |objs| && ListsAll(objs, f, rl, 0, oi)
      invariant maxResolutions >= 2 ==> |rl| < maxResolutions
      invariant !broke
    {
      var expired: bool := *;
      if timed && expired {
        return Incomplete, rl, true;
      }
      var must := MustBeTrue(f, Below(objs[oi].address), reliable);
      if must.None? {
        return Incomplete, rl, true;
      }
      if must.value {
        assert forall p :: p in f ==> Answer(Below(objs[oi].address), p);
        NoneAbove(objs, f, oi);
        return Continue, rl, broke;
      }
      ghost var before := rl;
      var c;
      c, rl, broke := CheckPointerInObject(objs, f, oi, rl, maxResolutions, reliable);
      Appended(objs, f, before, rl, oi, 0, oi);
      if c == Complete {
        OnlyOne(objs, f, oi);
        return Complete, rl, broke;
      }
      if c == Incomplete {
        return Incomplete, rl, broke;
      }
      oi := oi + 1;
    }
    return Continue, rl, broke;
  }

  // --- The limit ----------------------------------------------------------------------------

  function ReachableObjects(objs: seq<MemoryObject>, f: set<nat>): set<nat>
  {
    set k: nat | k < |objs| && Reaches(f, objs[k])
  }

  function Entries(rl: seq<nat>): set<nat>
  {
    set k | k in rl
  }

  /** A complete list has as many entries as there are reachable objects. */
  lemma {:induction false} ListSize(objs: seq<MemoryObject>, f: set<nat>, rl: seq<nat>)
    requires ListsAll(objs, f, rl, 0, |objs|)
    ensures |rl| == |ReachableObjects(objs, f)|
  {
    hide Reaches;
    DistinctSize(rl);
    assert Entries(rl) == ReachableObjects(objs, f);
  }

  lemma {:induction false} PartSize(objs: seq<MemoryObject>, f: set<nat>, rl: seq<nat>)
    requires Lists(objs, f, rl, 0, |objs|) || ListsAll(objs, f, rl, 0, |objs|)
    ensures |rl| <= |ReachableObjects(objs, f)|
  {
    hide Reaches;
    DistinctSize(rl);
    var some, all := Entries(rl), ReachableObjects(objs, f);
    assert some <= all;
    assert all == some + (all - some);
  }

  lemma {:induction false} DistinctSize(rl: seq<nat>)
    requires forall i, j :: 0 <= i < j < |rl| ==> rl[i] != rl[j]
    ensures |Entries(rl)| == |rl|
  {
    if rl != [] {
      var front, k := rl[..|rl| - 1], rl[|rl| - 1];
      DistinctSize(front);
      assert rl == front + [k];
      assert k !in front;
      assert Entries(rl) == Entries(front) + {k};
    }
  }

  /** The pointer reaches at most one object. */
  predicate AtMostOne(objs: seq<MemoryObject>, f: set<nat>)
  {
    forall i, j :: 0 <= i < j < |objs| ==> !(Reaches(f, objs[i]) && Reaches(f, objs[j]))
  }

  lemma {:induction false} LimitOfOne(objs: seq<MemoryObject>, f: set<nat>, rl: seq<nat>)
    requires ListsAll(objs, f, rl, 0, |objs|)
    ensures |rl| <= 1 <==> AtMostOne(objs, f)
  {
    hide Reaches;
    if |rl| > 1 {
      var i, j := if rl[0] < rl[1] then rl[0] else rl[1], if rl[0] < rl[1] then rl[1] else rl[0];
      assert rl[0] in rl && rl[1] in rl && rl[0] != rl[1];
      assert 0 <= i < j < |objs| && Reaches(f, objs[i]) && Reaches(f, objs[j]);
    } else {
      forall i, j | 0 <= i < j < |objs|
        ensures !(Reaches(f, objs[i]) && Reaches(f, objs[j]))
      {
        assert !(i in rl && j in rl);
      }
    }
  }

  /** The header promises at most `maxResolutions` entries when it is not 0; two objects of a byte each and a pointer to
      either give two entries for the limit 1, as a complete answer of a reliable solver without a time limit. */
  method LimitOfOneExceeded() returns (incomplete: bool, rl: seq<nat>, broke: bool)
    ensures !broke && !incomplete && |rl| == 2
  {
    var objs := [MemoryObject(8, 1), MemoryObject(16, 1)];
    var f := {8, 16};
    assert 8 in f && InBounds(objs[0], 8) && 16 in f && InBounds(objs[1], 16);
    assert Reaches(f, objs[0]) && Reaches(f, objs[1]);
    hide InBounds, Reaches;
    incomplete, rl, broke := Resolve(objs, Symbolic(f), 1, false, true);
    ListSize(objs, f, rl);
    assert ReachableObjects(objs, f) == {0, 1};
  }
}
