/** Runs of a Feistel cipher over any halves with an exclusive or: rounds with even numbers change
    the left half, rounds with odd numbers the right one. */
module Feistel {

  datatype Pair<T> = Pair(l: T, r: T)

  function Swap<T>(s: Pair<T>): Pair<T> { Pair(s.r, s.l) }

  ghost predicate Cancels<T(!new)>(x: (T, T) -> T)
  {
    forall a, b :: x(x(a, b), b) == a
  }

  function Round<T>(x: (T, T) -> T, f: (nat, T) -> T, left: bool, key: nat, s: Pair<T>): Pair<T>
  {
    if left then Pair(x(s.l, f(key, s.r)), s.r) else Pair(s.l, x(s.r, f(key, s.l)))
  }

  /** The first `n` rounds, with the keys in order. */
  function Run<T>(x: (T, T) -> T, f: (nat, T) -> T, n: nat, s: Pair<T>): Pair<T>
  {
    if n == 0 then s else Round(x, f, n % 2 == 1, n - 1, Run(x, f, n - 1, s))
  }

  /** The first `n` of `all` rounds, with the keys from last to first. */
  function RunBack<T>(x: (T, T) -> T, f: (nat, T) -> T, all: nat, n: nat, s: Pair<T>): Pair<T>
    requires n <= all
  {
    if n == 0 then s else Round(x, f, n % 2 == 1, all - n, RunBack(x, f, all, n - 1, s))
  }

  lemma {:induction false} RunNone<T>(x: (T, T) -> T, f: (nat, T) -> T, all: nat, s: Pair<T>)
    ensures Run(x, f, 0, s) == s && RunBack(x, f, all, 0, s) == s
  {
  }

  lemma {:induction false} RunNext<T>(x: (T, T) -> T, f: (nat, T) -> T, n: nat, s: Pair<T>)
    ensures Run(x, f, n + 1, s) == Round(x, f, n % 2 == 0, n, Run(x, f, n, s))
  {
  }

  lemma {:induction false} RunBackNext<T>(x: (T, T) -> T, f: (nat, T) -> T, all: nat, n: nat, s: Pair<T>)
    requires n < all
    ensures RunBack(x, f, all, n + 1, s) == Round(x, f, n % 2 == 0, all - n - 1, RunBack(x, f, all, n, s))
  {
  }

  /** Running back from the exchanged result retraces the run. */
  lemma {:induction false} Retrace<T(!new)>(x: (T, T) -> T, f: (nat, T) -> T, all: nat, n: nat, s: Pair<T>)
    requires Cancels(x) && n <= all && all % 2 == 0
    ensures RunBack(x, f, all, n, Swap(Run(x, f, all, s))) == Swap(Run(x, f, all - n, s))
  {
    if n > 0 {
      Retrace(x, f, all, n - 1, s);
      var before := Run(x, f, all - n, s);
      assert Run(x, f, all - n + 1, s) == Round(x, f, n % 2 == 0, all - n, before);
    }
  }
}
