/** Cache geometry: set and tag of an address (CacheUtil.h, CacheUtil.cpp). */
module CacheLines {
  import opened Words

  ghost predicate PowerOfTwo(n: nat)
  {
    exists k: nat :: n == Pow2(k)
  }

  /** The assertion at the head of log_base2 passes exactly for powers of two. */
  lemma {:induction false} PowerTest(n: nat)
    requires n > 0
    ensures And(n, n - 1) == 0 <==> PowerOfTwo(n)
  {
    if n == 1 {
      assert n == Pow2(0);
    } else if n % 2 == 1 {
      OddIsNoPower(n);
      assert n / 2 == (n - 1) / 2;
      AndSelf(n / 2);
      Unfold(AndOp, n, n - 1);
    } else {
      PowerTest(n / 2);
      assert (n - 1) / 2 == n / 2 - 1;
      Unfold(AndOp, n, n - 1);
      HalfOfPower(n);
    }
  }

  lemma {:induction false} AndSelf(n: nat)
    ensures And(n, n) == n
  {
    if n > 0 {
      AndSelf(n / 2);
    }
  }

  lemma {:induction false} OddIsNoPower(n: nat)
    requires n > 1 && n % 2 == 1
    ensures !PowerOfTwo(n)
  {
    forall k: nat
      ensures n != Pow2(k)
    {
      assert k > 0 ==> Pow2(k) == 2 * Pow2(k - 1);
    }
  }

  lemma {:induction false} HalfOfPower(n: nat)
    requires n > 1 && n % 2 == 0
    ensures PowerOfTwo(n) <==> PowerOfTwo(n / 2)
  {
    if PowerOfTwo(n) {
      var k: nat :| n == Pow2(k);
      assert k > 0 && n / 2 == Pow2(k - 1);
    }
    if PowerOfTwo(n / 2) {
      var k: nat :| n / 2 == Pow2(k);
      assert n == Pow2(k + 1);
    }
  }

  /** The exponent of a power of two. */
  ghost function Log2(n: nat): (k: nat)
    requires PowerOfTwo(n)
    ensures Pow2(k) == n
  {
    var k: nat :| n == Pow2(k);
    k
  }

  lemma {:induction false} Pow2Injective(j: nat, k: nat)
    requires Pow2(j) == Pow2(k)
    ensures j == k
  {
    if j > 0 && k > 0 {
      Pow2Injective(j - 1, k - 1);
    }
  }

  datatype LogResult = Log(power: nat) | AssertionFailed

  /** CacheUtil::log_base2 */
  method LogBase2(n: int) returns (r: LogResult)
    ensures r.Log? <==> n > 0 && PowerOfTwo(n)
    ensures r.Log? ==> Pow2(r.power) == n
  {
    if n <= 0 {
      return AssertionFailed;
    }
    PowerTest(n);
    hide And;
    if And(n, n - 1) != 0 {
      return AssertionFailed;
    }
    var m, power := n / 2, 0;
    ghost var k := Log2(n);
    assert k > 0 ==> m == Pow2(k - 1);
    while m != 0
      invariant 0 <= power <= k && m == (if power == k then 0 else Pow2(k - 1 - power))
      decreases m
    {
      m := m / 2;
      power := power + 1;
    }
    return Log(power);
  }

  // --- Geometry --------------------------------------------------------------------

  datatype Config = Config(ways: nat, line: nat, sets: nat)

  /** Sizes are positive ints and powers of two, so their product stays far
      below the size of the address space. */
  ghost predicate ValidConfig(c: Config)
  {
    && c.ways > 0
    && 0 < c.line < 0x8000_0000 && PowerOfTwo(c.line)
    && 0 < c.sets < 0x8000_0000 && PowerOfTwo(c.sets)
  }

  function Line(c: Config, x: nat): nat
    requires c.line > 0
  {
    x / c.line
  }

  function SetOf(c: Config, x: nat): (s: nat)
    requires c.line > 0 && c.sets > 0
    ensures s < c.sets
  {
    x / c.line % c.sets
  }

  function TagOf(c: Config, x: nat): nat
    requires c.line > 0 && c.sets > 0
  {
    x / c.line / c.sets
  }

  /** CACHE_SET: shift out the line offset, mask the set index. */
  lemma {:induction false} SetIsShiftAndMask(c: Config, x: nat)
    requires ValidConfig(c)
    ensures SetOf(c, x) == And(x / Pow2(Log2(c.line)), c.sets - 1)
  {
    AndMask(Log2(c.sets), x / c.line);
  }

  /** CACHE_TAG: shift out the line offset and the set index. */
  lemma {:induction false} TagIsShift(c: Config, x: nat)
    requires ValidConfig(c)
    ensures TagOf(c, x) == x / Pow2(Log2(c.line) + Log2(c.sets))
  {
    Pow2Add(Log2(c.line), Log2(c.sets));
    DivDiv(x, c.line, c.sets);
  }

  lemma {:induction false} DivDiv(x: nat, a: nat, b: nat)
    requires a > 0 && b > 0
    ensures a * b > 0 && x / a / b == x / (a * b)
  {
    var q, r := x / a, x % a;
    NestedQuotient(a, b, q, r, q / b, q % b);
    QuotientIs(x, a * b, q / b, a * (q % b) + r);
  }

  lemma {:induction false} NestedQuotient(a: int, b: int, q: int, r: int, q': int, r': int)
    requires q == b * q' + r' && 0 <= r < a && 0 <= r' < b
    ensures a * q + r == (a * b) * q' + (a * r' + r)
    ensures 0 <= a * r' + r < a * b
  {
    assert a * q == a * (b * q') + a * r';
    assert a * (b * q') == (a * b) * q';
    MulBound(a, r' + 1, b);
    assert a * (r' + 1) == a * r' + a;
    assert a * r' >= 0;
  }

  lemma {:induction false} MulBound(a: int, r: int, b: int)
    requires a > 0 && r <= b
    ensures a * r <= a * b
  {
  }

  /** Two addresses are in the same line exactly when set and tag agree. */
  lemma {:induction false} SameLine(c: Config, x: nat, y: nat)
    requires c.line > 0 && c.sets > 0
    ensures Line(c, x) == Line(c, y) <==> SetOf(c, x) == SetOf(c, y) && TagOf(c, x) == TagOf(c, y)
  {
    var p, q := Line(c, x), Line(c, y);
    assert p == c.sets * (p / c.sets) + p % c.sets;
    assert q == c.sets * (q / c.sets) + q % c.sets;
  }
}
