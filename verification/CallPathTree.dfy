/** Trees of call paths: chains of (call site, function) pairs and sums over subtrees. A node is its
    position; position 0 is the root, and a null pointer is 0. */
module CallPathTree {

  type Key = (nat, nat)

  datatype Link = Link(parent: nat, site: nat, callee: nat)

  function KeyOf(l: Link): Key { (l.site, l.callee) }

  /** A root, and parents before their children. Only the root has no function. */
  predicate Tree(t: seq<Link>)
  {
    && 0 < |t| && t[0] == Link(0, 0, 0)
    && forall i :: 0 < i < |t| ==> t[i].parent < i && t[i].callee != 0
  }

  // --- Chains -------------------------------------------------------------------------------------

  /** Whether `key` stands on the chain from `p` up to the root. */
  predicate OnChain(t: seq<Link>, p: nat, key: Key)
    requires Tree(t) && p < |t|
  {
    KeyOf(t[p]) == key || (p > 0 && OnChain(t, t[p].parent, key))
  }

  /** The first node with `key` on the way from `p` to the root. */
  function Nearest(t: seq<Link>, p: nat, key: Key): (r: nat)
    requires Tree(t) && p < |t| && OnChain(t, p, key)
    ensures r <= p && KeyOf(t[r]) == key
  {
    if KeyOf(t[p]) == key then p else Nearest(t, t[p].parent, key)
  }

  /** No pair repeats on a chain. */
  ghost predicate NoRepeat(t: seq<Link>)
    requires Tree(t)
  {
    forall i :: 0 < i < |t| ==> !OnChain(t, t[i].parent, KeyOf(t[i]))
  }

  /** No two children of a node have the same pair. */
  ghost predicate Unique(t: seq<Link>)
  {
    forall i, j :: 0 < i < j < |t| ==> t[i] != t[j]
  }

  lemma {:induction false} ChainKept(t: seq<Link>, l: Link, p: nat, key: Key)
    requires Tree(t) && Tree(t + [l]) && p < |t|
    ensures OnChain(t + [l], p, key) == OnChain(t, p, key)
    ensures OnChain(t, p, key) ==> Nearest(t + [l], p, key) == Nearest(t, p, key)
  {
    if p > 0 {
      ChainKept(t, l, t[p].parent, key);
    }
  }

  /** A pair that is not on a chain can be put below it. */
  lemma {:induction false} Grow(t: seq<Link>, l: Link)
    requires Tree(t) && NoRepeat(t) && Unique(t) && l.parent < |t| && l.callee != 0
    requires !OnChain(t, l.parent, KeyOf(l)) && l !in t
    ensures Tree(t + [l]) && NoRepeat(t + [l]) && Unique(t + [l])
  {
    var u := t + [l];
    forall i | 0 < i < |u|
      ensures !OnChain(u, u[i].parent, KeyOf(u[i]))
    {
      ChainKept(t, l, u[i].parent, KeyOf(u[i]));
    }
  }

  // --- Subtrees ---------------------------------------------------------------------------------------

  /** The value of a node and of all below it, by children. */
  function Subtree(t: seq<Link>, v: seq<int>, i: nat): int
    requires Tree(t) && |v| == |t| && i < |t|
    decreases 2 * (|t| - i)
  {
    v[i] + Children(t, v, i, i + 1)
  }

  /** The subtrees of the children of `i` from position `m` on. */
  function Children(t: seq<Link>, v: seq<int>, i: nat, m: nat): int
    requires Tree(t) && |v| == |t| && i < m <= |t|
    decreases 2 * (|t| - m) + 1
  {
    if m == |t| then 0 else (if t[m].parent == i then Subtree(t, v, m) else 0) + Children(t, v, i, m + 1)
  }

  /** Whether `i` is `j` or above it. */
  predicate Above(t: seq<Link>, i: nat, j: nat)
    requires Tree(t) && j < |t|
  {
    i == j || (i < j && Above(t, i, t[j].parent))
  }

  /** The value of every node from position `m` on that is `i` or below it. */
  function Total(t: seq<Link>, v: seq<int>, i: nat, m: nat): int
    requires Tree(t) && |v| == |t| && m <= |t|
    decreases |t| - m
  {
    if m == |t| then 0 else (if Above(t, i, m) then v[m] else 0) + Total(t, v, i, m + 1)
  }

  /** The values, from position `m` on, of the nodes below children of `i` at or past `c`. */
  function Spread(t: seq<Link>, v: seq<int>, i: nat, c: nat, m: nat): int
    requires Tree(t) && |v| == |t| && c <= |t| && m <= |t|
    decreases |t| - m
  {
    if m == |t| then 0 else (if Through(t, i, c, m) then v[m] else 0) + Spread(t, v, i, c, m + 1)
  }

  /** Whether the way from `j` up to `i` passes a child of `i` at or past position `c`. */
  predicate Through(t: seq<Link>, i: nat, c: nat, j: nat)
    requires Tree(t) && j < |t|
  {
    i < j && (if t[j].parent == i then c <= j else Through(t, i, c, t[j].parent))
  }

  lemma {:induction false} ThroughChild(t: seq<Link>, i: nat, c: nat, j: nat)
    requires Tree(t) && i < c < |t| && j < |t|
    ensures Through(t, i, c, j) <==> Through(t, i, c + 1, j) || (t[c].parent == i && Above(t, c, j))
    ensures !(Through(t, i, c + 1, j) && t[c].parent == i && Above(t, c, j))
  {
    if i < j && t[j].parent != i {
      ThroughChild(t, i, c, t[j].parent);
    }
  }

  lemma {:induction false} ThroughAll(t: seq<Link>, i: nat, j: nat)
    requires Tree(t) && j < |t|
    ensures Through(t, i, i + 1, j) <==> Above(t, i, j) && i != j
    ensures !Through(t, i, |t|, j)
  {
    if i < j && t[j].parent != i {
      ThroughAll(t, i, t[j].parent);
    }
  }

  lemma {:induction false} SpreadStep(t: seq<Link>, v: seq<int>, i: nat, c: nat, m: nat)
    requires Tree(t) && |v| == |t| && i < c < |t| && m <= |t|
    ensures Spread(t, v, i, c, m) == Spread(t, v, i, c + 1, m) + if t[c].parent == i then Total(t, v, c, m) else 0
    decreases |t| - m
  {
    hide Through, Above;
    if m < |t| {
      SpreadStep(t, v, i, c, m + 1);
      ThroughChild(t, i, c, m);
    }
  }

  lemma {:induction false} SpreadNone(t: seq<Link>, v: seq<int>, i: nat, m: nat)
    requires Tree(t) && |v| == |t| && m <= |t|
    ensures Spread(t, v, i, |t|, m) == 0
    decreases |t| - m
  {
    hide Through;
    if m < |t| {
      SpreadNone(t, v, i, m + 1);
      ThroughAll(t, i, m);
    }
  }

  lemma {:induction false} TotalSplit(t: seq<Link>, v: seq<int>, i: nat, m: nat)
    requires Tree(t) && |v| == |t| && i < |t| && m <= |t|
    ensures Total(t, v, i, m) == (if m <= i then v[i] else 0) + Spread(t, v, i, i + 1, m)
    decreases |t| - m
  {
    hide Through;
    if m < |t| {
      TotalSplit(t, v, i, m + 1);
      ThroughAll(t, i, m);
    }
  }

  lemma {:induction false} ChildrenAreSpread(t: seq<Link>, v: seq<int>, i: nat, c: nat)
    requires Tree(t) && |v| == |t| && i < c <= |t|
    ensures Children(t, v, i, c) == Spread(t, v, i, c, 0)
    decreases 2 * (|t| - c) + 1
  {
    if c == |t| {
      SpreadNone(t, v, i, 0);
    } else {
      ChildrenAreSpread(t, v, i, c + 1);
      SubtreeIsTotal(t, v, c);
      SpreadStep(t, v, i, c, 0);
    }
  }

  /** Summed by children, a subtree is the sum over all nodes whose chain passes its top. */
  lemma {:induction false} SubtreeIsTotal(t: seq<Link>, v: seq<int>, i: nat)
    requires Tree(t) && |v| == |t| && i < |t|
    ensures Subtree(t, v, i) == Total(t, v, i, 0)
    decreases 2 * (|t| - i)
  {
    ChildrenAreSpread(t, v, i, i + 1);
    TotalSplit(t, v, i, 0);
  }

  // --- Table cells -------------------------------------------------------------------------------------------

  /** The values of the nodes with `key` from position `m` on. */
  function Cell(t: seq<Link>, v: seq<int>, key: Key, m: nat): int
    requires |v| == |t| && m <= |t|
    decreases |t| - m
  {
    if m == |t| then 0 else (if KeyOf(t[m]) == key then v[m] else 0) + Cell(t, v, key, m + 1)
  }

  ghost predicate Occurs(t: seq<Link>, key: Key, m: nat)
  {
    exists i :: m <= i < |t| && KeyOf(t[i]) == key
  }
}
