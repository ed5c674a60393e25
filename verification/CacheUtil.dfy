/** Address expressions and the memoised set and tag constraints of CacheUtil.cpp.

    A symbolic address is known by its identity only; an assignment may give it
    any 64-bit value, so a statement about all assignments covers whatever the
    expression computes. */
module CacheUtil {
  import opened Words
  import opened CacheLines

  datatype Addr = Const(value: Word64) | Sym(id: nat)

  type Assignment = nat -> Word64

  function Eval(a: Addr, s: Assignment): Word64
  {
    match a
    case Const(v) => v
    case Sym(id) => s(id)
  }

  /** Numeric expressions the constraints are built from. */
  datatype Val = Lit(n: nat) | Address(a: Addr) | LShr(v: Val, k: nat) | Mask(v: Val, m: nat)

  function EvalVal(v: Val, s: Assignment): nat
  {
    match v
    case Lit(n) => n
    case Address(a) => Eval(a, s)
    case LShr(w, k) => Shr(EvalVal(w, s), k)
    case Mask(w, m) => And(EvalVal(w, s), m)
  }

  /** Boolean constraints. */
  datatype Cond = Bool(b: bool) | Eq(x: Val, y: Val) | IsZero(c: Cond) | Both(c: Cond, d: Cond) | Either(c: Cond, d: Cond)

  predicate Holds(c: Cond, s: Assignment)
  {
    match c
    case Bool(b) => b
    case Eq(x, y) => EvalVal(x, s) == EvalVal(y, s)
    case IsZero(d) => !Holds(d, s)
    case Both(d, e) => Holds(d, s) && Holds(e, s)
    case Either(d, e) => Holds(d, s) || Holds(e, s)
  }

  /** The two parts of an address that are compared. */
  datatype Part = SetPart | TagPart

  function PartOf(c: Config, p: Part, x: nat): nat
    requires c.line > 0 && c.sets > 0
  {
    if p == SetPart then SetOf(c, x) else TagOf(c, x)
  }

  /** `v` is the set (tag) expression of address `a`. */
  ghost predicate Denotes(c: Config, p: Part, v: Val, a: Addr)
    requires c.line > 0 && c.sets > 0
  {
    forall s: Assignment :: EvalVal(v, s) == PartOf(c, p, Eval(a, s))
  }

  /** `k` is the constraint that `a` and `b` agree in their set (tag). */
  ghost predicate Compares(c: Config, p: Part, k: Cond, a: Addr, b: Addr)
    requires c.line > 0 && c.sets > 0
  {
    forall s: Assignment :: Holds(k, s) <==> PartOf(c, p, Eval(a, s)) == PartOf(c, p, Eval(b, s))
  }

  /** The memo tables for one part: `setBuffer` and `setPairBuffer`, or
      `tagBuffer` and `tagPairBuffer`. */
  class Tables {
    const cfg: Config
    const part: Part
    var buffer: map<Addr, Val>
    var pairBuffer: map<(Addr, Addr), Cond>

    /** No entry, whenever it was made, says anything but the right thing. */
    ghost predicate Valid()
      reads this
    {
      && ValidConfig(cfg)
      && (forall a :: a in buffer ==> Denotes(cfg, part, buffer[a], a))
      && (forall p :: p in pairBuffer ==> Compares(cfg, part, pairBuffer[p], p.0, p.1))
    }

    constructor (cfg: Config, part: Part)
      requires ValidConfig(cfg)
      ensures Valid() && this.cfg == cfg && this.part == part
    {
      this.cfg, this.part := cfg, part;
      buffer, pairBuffer := map[], map[];
    }

    /** getSet or getTag of a constant address. */
    method OfConstant(x: Word64) returns (n: nat)
      requires ValidConfig(cfg)
      ensures n == PartOf(cfg, part, x)
    {
      hide SetOf, TagOf, Pow2, And;
      var l := LogBase2(cfg.line);
      var k := LogBase2(cfg.sets);
      Exponents(cfg, l.power, k.power);
      if part == SetPart {
        SetIsShiftAndMask(cfg, x);
        n := And(x / Pow2(l.power), cfg.sets - 1);
      } else {
        TagIsShift(cfg, x);
        n := x / Pow2(l.power + k.power);
      }
    }

    /** getSet or getTag of a symbolic address, remembered in `buffer`. */
    method OfSymbol(a: Addr) returns (v: Val)
      requires Valid() && a.Sym?
      modifies this`buffer
      ensures Valid() && Denotes(cfg, part, v, a)
      ensures buffer == old(buffer)[a := v]
    {
      hide SetOf, TagOf, Pow2, And, Denotes, Compares;
      if a in buffer {
        return buffer[a];
      }
      var l := LogBase2(cfg.line);
      var k := LogBase2(cfg.sets);
      Exponents(cfg, l.power, k.power);
      if part == SetPart {
        v := Mask(LShr(Address(a), l.power), cfg.sets - 1);
        SetExpression(cfg, a);
      } else {
        v := LShr(Address(a), l.power + k.power);
        TagExpression(cfg, a);
      }
      buffer := buffer[a := v];
    }

    /** generateSetCnstr or generateTagCnstr: at least one address is symbolic. */
    method Compare(i: Addr, j: Addr) returns (result: Cond)
      requires Valid() && !(i.Const? && j.Const?)
      modifies this`buffer, this`pairBuffer
      ensures Valid() && Compares(cfg, part, result, i, j)
      ensures pairBuffer == old(pairBuffer)[(i, j) := result] || pairBuffer == old(pairBuffer)[(j, i) := result]
    {
      hide Denotes, Compares, PartOf;
      if i.Const? {
        result := CompareConst(i, j);
      } else if j.Const? {
        result := CompareConst(j, i);
        ComparesSymmetric(cfg, part, result, j, i);
      } else if (j, i) in pairBuffer {
        result := pairBuffer[(j, i)];
        ComparesSymmetric(cfg, part, result, j, i);
      } else if (i, j) in pairBuffer {
        result := pairBuffer[(i, j)];
      } else {
        var v := OfSymbol(j);
        var w := OfSymbol(i);
        result := Eq(v, w);
        EqCompares(cfg, part, v, w, j, i);
        pairBuffer := pairBuffer[(j, i) := result];
        ComparesSymmetric(cfg, part, result, j, i);
      }
    }

    /** The branch with one constant address, `a`. */
    method CompareConst(a: Addr, b: Addr) returns (result: Cond)
      requires Valid() && a.Const? && b.Sym?
      modifies this`buffer, this`pairBuffer
      ensures Valid() && Compares(cfg, part, result, a, b)
      ensures pairBuffer == old(pairBuffer)[(a, b) := result]
    {
      hide Denotes, Compares, PartOf;
      if (a, b) in pairBuffer {
        return pairBuffer[(a, b)];
      }
      var n := OfConstant(a.value);
      var v := OfSymbol(b);
      result := Eq(v, Lit(n));
      LitDenotes(cfg, part, n, a);
      EqCompares(cfg, part, v, Lit(n), b, a);
      ComparesSymmetric(cfg, part, result, b, a);
      pairBuffer := pairBuffer[(a, b) := result];
    }

    /** generateSetCnstrCC or generateTagCnstrCC: both addresses constant. */
    method CompareConstants(i: Addr, j: Addr) returns (same: bool)
      requires ValidConfig(cfg) && i.Const? && j.Const?
      ensures same <==> PartOf(cfg, part, i.value) == PartOf(cfg, part, j.value)
    {
      hide PartOf;
      var m := OfConstant(i.value);
      var n := OfConstant(j.value);
      same := m == n;
    }
  }

  lemma {:induction false} Exponents(c: Config, l: nat, k: nat)
    requires ValidConfig(c) && Pow2(l) == c.line && Pow2(k) == c.sets
    ensures l == Log2(c.line) && k == Log2(c.sets)
  {
    Pow2Injective(l, Log2(c.line));
    Pow2Injective(k, Log2(c.sets));
  }

  lemma {:induction false} SetExpression(c: Config, a: Addr)
    requires ValidConfig(c)
    ensures Denotes(c, SetPart, Mask(LShr(Address(a), Log2(c.line)), c.sets - 1), a)
  {
    hide And, Pow2, SetOf;
    forall s: Assignment
      ensures EvalVal(Mask(LShr(Address(a), Log2(c.line)), c.sets - 1), s) == PartOf(c, SetPart, Eval(a, s))
    {
      var x := LShr(Address(a), Log2(c.line));
      assert EvalVal(x, s) == Eval(a, s) / Pow2(Log2(c.line));
      SetIsShiftAndMask(c, Eval(a, s));
    }
  }

  lemma {:induction false} TagExpression(c: Config, a: Addr)
    requires ValidConfig(c)
    ensures Denotes(c, TagPart, LShr(Address(a), Log2(c.line) + Log2(c.sets)), a)
  {
    hide And, Pow2, TagOf;
    forall s: Assignment
      ensures EvalVal(LShr(Address(a), Log2(c.line) + Log2(c.sets)), s) == PartOf(c, TagPart, Eval(a, s))
    {
      TagIsShift(c, Eval(a, s));
    }
  }

  lemma {:induction false} LitDenotes(c: Config, p: Part, n: nat, a: Addr)
    requires ValidConfig(c) && a.Const? && n == PartOf(c, p, a.value)
    ensures Denotes(c, p, Lit(n), a)
  {
  }

  lemma {:induction false} EqCompares(c: Config, p: Part, v: Val, w: Val, a: Addr, b: Addr)
    requires ValidConfig(c) && Denotes(c, p, v, a) && Denotes(c, p, w, b)
    ensures Compares(c, p, Eq(v, w), a, b)
  {
    hide PartOf;
  }

  lemma {:induction false} ComparesSymmetric(c: Config, p: Part, k: Cond, a: Addr, b: Addr)
    requires ValidConfig(c) && Compares(c, p, k, a, b)
    ensures Compares(c, p, k, b, a)
  {
    hide PartOf;
  }
}
