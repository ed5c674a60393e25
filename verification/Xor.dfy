/** Exclusive or of machine words under a name, with the laws the ciphers use, and a rotation. */
module Xor {

  function X8(a: bv8, b: bv8): bv8 { a ^ b }
  function X32(a: bv32, b: bv32): bv32 { a ^ b }
  function Ror8(w: bv32): bv32 { (w >> 8) | (w << 24) }
  function Sum8(a: bv8, b: bv8, c: bv8, d: bv8): bv8 { X8(X8(X8(a, b), c), d) }
  function Sum32(a: bv32, b: bv32, c: bv32, d: bv32): bv32 { X32(X32(X32(a, b), c), d) }

  /** The names stand for the operators. */
  lemma {:induction false} Names(a: bv8, b: bv8, c: bv32, d: bv32)
    ensures X8(a, b) == b ^ a && X32(c, d) == d ^ c && Ror8(c) == c.RotateRight(8)
  {
  }

  lemma {:induction false} X32Cancel(a: bv32, b: bv32)
    ensures X32(X32(a, b), b) == a && X32(b, X32(a, b)) == a
  {
  }

  lemma {:induction false} Assoc8(a: bv8, b: bv8, c: bv8)
    ensures X8(X8(a, b), c) == X8(a, X8(b, c))
  {
  }

  lemma {:induction false} Comm8(a: bv8, b: bv8)
    ensures X8(a, b) == X8(b, a)
  {
  }

  lemma {:induction false} Swap8(p: bv8, q: bv8, r: bv8, s: bv8)
    ensures X8(X8(p, q), X8(r, s)) == X8(X8(p, r), X8(q, s))
  {
    hide X8;
    Assoc8(p, q, X8(r, s));
    Assoc8(q, r, s);
    Comm8(q, r);
    Assoc8(r, q, s);
    Assoc8(p, r, X8(q, s));
  }

  lemma {:induction false} Rotate8(a: bv8, b: bv8, c: bv8, d: bv8)
    ensures Sum8(a, b, c, d) == Sum8(b, c, d, a)
  {
    hide X8;
    Assoc8(a, b, c);
    Assoc8(a, X8(b, c), d);
    Comm8(a, X8(X8(b, c), d));
  }

  lemma {:induction false} Zero8(a: bv8)
    ensures Sum8(a, 0, 0, 0) == a && Sum8(0, a, 0, 0) == a && Sum8(0, 0, a, 0) == a && Sum8(0, 0, 0, a) == a
  {
  }

  lemma {:induction false} XComm(a: bv32, b: bv32)
    ensures X32(a, b) == X32(b, a)
  {
  }

  lemma {:induction false} Swap32(p: bv32, q: bv32, r: bv32, s: bv32)
    ensures X32(X32(p, q), X32(r, s)) == X32(X32(p, r), X32(q, s))
  {
    hide X32;
    XAssoc(p, q, X32(r, s));
    XAssoc(q, r, s);
    XComm(q, r);
    XAssoc(r, q, s);
    XAssoc(p, r, X32(q, s));
  }

  lemma {:induction false} Regroup32(a: bv32, b: bv32, c: bv32, d: bv32, a': bv32, b': bv32, c': bv32, d': bv32)
    ensures Sum32(X32(a, a'), X32(b, b'), X32(c, c'), X32(d, d')) == X32(Sum32(a, b, c, d), Sum32(a', b', c', d'))
  {
    hide X32;
    Swap32(a, a', b, b');
    Swap32(X32(a, b), X32(a', b'), c, c');
    Swap32(X32(X32(a, b), c), X32(X32(a', b'), c'), d, d');
  }

  lemma {:induction false} XAssoc(a: bv32, b: bv32, c: bv32)
    ensures X32(X32(a, b), c) == X32(a, X32(b, c))
  {
  }
}
