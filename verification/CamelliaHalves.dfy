/** The 64-bit halves of Camellia and the layers FL and FL^-1 between its rounds
    (section 2.4.2 of RFC 3713), as pairs of 32-bit words. */
module CamelliaHalves {
  import opened Xor

  datatype Half = Half(l: bv32, r: bv32)

  const ZERO: Half := Half(0, 0)
  const ONE: Half := Half(0, 1)

  function X(a: Half, b: Half): Half { Half(X32(a.l, b.l), X32(a.r, b.r)) }

  function And(a: bv32, b: bv32): bv32 { a & b }
  function Or(a: bv32, b: bv32): bv32 { a | b }
  function AndNot(a: bv32, b: bv32): bv32 { a & !b }
  function Rol1(w: bv32): bv32 { (w << 1) | (w >> 31) }

  function Fl(x: Half, k: Half): Half
  {
    var r := X32(x.r, Rol1(And(x.l, k.l)));
    Half(X32(x.l, Or(r, k.r)), r)
  }

  function FlInverse(x: Half, k: Half): Half
  {
    var l := X32(x.l, Or(x.r, k.r));
    Half(l, X32(x.r, Rol1(And(l, k.l))))
  }

  /** How a difference moves through FL^-1 with key `k`, and backwards through FL. */
  function Push(d: Half, k: Half): Half
  {
    var l := X32(d.l, AndNot(d.r, k.r));
    Half(l, X32(d.r, Rol1(And(l, k.l))))
  }

  // --- Exclusive or of halves -----------------------------------------------------------

  lemma {:induction false} Cancel(a: Half, b: Half)
    ensures X(X(a, b), b) == a && X(a, a) == ZERO && X(a, ZERO) == a
  {
  }

  lemma {:induction false} Assoc(a: Half, b: Half, c: Half)
    ensures X(X(a, b), c) == X(a, X(b, c))
  {
    hide X32;
    XAssoc(a.l, b.l, c.l);
    XAssoc(a.r, b.r, c.r);
  }

  lemma {:induction false} Comm(a: Half, b: Half)
    ensures X(a, b) == X(b, a)
  {
  }

  /** An offset met by a key that carries it and the next one is replaced by the next one. */
  lemma {:induction false} Exchange(t: Half, b: Half, k: Half, f: Half)
    ensures X(X(X(t, b), X(b, k)), f) == X(X(t, f), k)
  {
    hide X;
    Assoc(X(t, b), b, k);
    Cancel(t, b);
    Assoc(t, k, f);
    Comm(k, f);
    Assoc(t, f, k);
  }

  lemma {:induction false} SwapPairs(p: Half, q: Half, r: Half, s: Half)
    ensures X(X(p, q), X(r, s)) == X(X(p, r), X(q, s))
  {
    hide X;
    Assoc(p, q, X(r, s));
    Assoc(q, r, s);
    Comm(q, r);
    Assoc(r, q, s);
    Assoc(p, r, X(q, s));
  }

  // --- The layers -----------------------------------------------------------------------------

  lemma {:induction false} RolXor(a: bv32, b: bv32)
    ensures Rol1(X32(a, b)) == X32(Rol1(a), Rol1(b))
  {
  }

  lemma {:induction false} AndXor(a: bv32, b: bv32, k: bv32)
    ensures And(X32(a, b), k) == X32(And(a, k), And(b, k))
  {
    calc {
      And(X32(a, b), k);
      (a ^ b) & k;
      (a & k) ^ (b & k);
      X32(And(a, k), And(b, k));
    }
  }

  lemma {:induction false} AndNotXor(a: bv32, b: bv32, k: bv32)
    ensures AndNot(X32(a, b), k) == X32(AndNot(a, k), AndNot(b, k))
  {
    calc {
      AndNot(X32(a, b), k);
      (a ^ b) & !k;
      (a & !k) ^ (b & !k);
      X32(AndNot(a, k), AndNot(b, k));
    }
  }

  lemma {:induction false} OrXor(a: bv32, b: bv32, k: bv32)
    ensures Or(X32(a, b), k) == X32(Or(a, k), AndNot(b, k))
  {
    calc {
      Or(X32(a, b), k);
      (a ^ b) | k;
      (a | k) ^ (b & !k);
      X32(Or(a, k), AndNot(b, k));
    }
  }

  lemma {:induction false} FlInverseFl(x: Half, k: Half)
    ensures FlInverse(Fl(x, k), k) == x && Fl(FlInverse(x, k), k) == x
  {
    hide X32, Rol1, And, Or;
    var r := X32(x.r, Rol1(And(x.l, k.l)));
    X32Cancel(x.l, Or(r, k.r));
    X32Cancel(x.r, Rol1(And(x.l, k.l)));
    var l := X32(x.l, Or(x.r, k.r));
    X32Cancel(x.r, Rol1(And(l, k.l)));
    X32Cancel(x.l, Or(x.r, k.r));
  }

  /** A difference added before FL^-1 leaves it pushed. */
  lemma {:induction false} FlInversePush(x: Half, d: Half, k: Half)
    ensures FlInverse(X(x, d), k) == X(FlInverse(x, k), Push(d, k))
  {
    hide X32, Rol1, And, Or, AndNot;
    var l, e := X32(x.l, Or(x.r, k.r)), X32(d.l, AndNot(d.r, k.r));
    OrXor(x.r, d.r, k.r);
    Swap32(x.l, d.l, Or(x.r, k.r), AndNot(d.r, k.r));
    AndXor(l, e, k.l);
    RolXor(And(l, k.l), And(e, k.l));
    Swap32(x.r, d.r, Rol1(And(l, k.l)), Rol1(And(e, k.l)));
  }

  /** FL turns a pushed difference back into the difference. */
  lemma {:induction false} FlPush(x: Half, d: Half, k: Half)
    ensures Fl(X(x, Push(d, k)), k) == X(Fl(x, k), d)
  {
    hide X, Fl, FlInverse, Push;
    var y := Fl(x, k);
    FlInverseFl(x, k);
    FlInversePush(y, d, k);
    FlInverseFl(X(y, d), k);
  }

  lemma {:induction false} PushXor(a: Half, b: Half, k: Half)
    ensures Push(X(a, b), k) == X(Push(a, k), Push(b, k))
  {
    hide X32, Rol1, And, AndNot;
    var c, d := X32(a.l, AndNot(a.r, k.r)), X32(b.l, AndNot(b.r, k.r));
    AndNotXor(a.r, b.r, k.r);
    Swap32(a.l, b.l, AndNot(a.r, k.r), AndNot(b.r, k.r));
    AndXor(c, d, k.l);
    RolXor(And(c, k.l), And(d, k.l));
    Swap32(a.r, b.r, Rol1(And(c, k.l)), Rol1(And(d, k.l)));
  }
}
