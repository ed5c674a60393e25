/** The call-path manager of CallPathManager.cpp: paths are found or made, recursion folds back to the
    path already on the chain, and statistics are summed from the leaves up. Nodes are positions in the
    order of their making. */
module CallPath {
  import opened CallPathTree
  import opened Options

  datatype Info = Info(count: int, statistics: int)

  /** What `children` may say about a pair under `p`: the node on the chain if there is one, else the child. */
  ghost predicate Entry(t: seq<Link>, p: nat, key: Key, c: nat)
    requires Tree(t) && p < |t|
  {
    c < |t| && if OnChain(t, p, key) then c == Nearest(t, p, key) else 0 < c && t[c] == Link(p, key.0, key.1)
  }

  type Table = seq<map<Key, nat>>

  ghost predicate Entries(t: seq<Link>, ch: Table)
    requires Tree(t)
  {
    |ch| == |t| && forall p: nat, key: Key :: p < |t| && key in ch[p] ==> Entry(t, p, key, ch[p][key])
  }

  /** Every path but the root is known to its parent. */
  ghost predicate Known(t: seq<Link>, ch: Table, i: nat)
    requires Tree(t) && |ch| == |t| && 0 < i < |t|
  {
    KeyOf(t[i]) in ch[t[i].parent] && ch[t[i].parent][KeyOf(t[i])] == i
  }

  function Put(ch: Table, p: nat, key: Key, r: nat): (u: Table)
    requires p < |ch|
    ensures |u| == |ch|
  {
    var entries: map<Key, nat> := ch[p][key := r];
    ch[p := entries]
  }

  lemma {:induction false} PutEntries(t: seq<Link>, ch: Table, p: nat, key: Key, r: nat)
    requires Tree(t) && Entries(t, ch) && p < |t| && Entry(t, p, key, r)
    ensures Entries(t, Put(ch, p, key, r))
  {
    hide Entry;
  }

  lemma {:induction false} PutKnown(t: seq<Link>, ch: Table, p: nat, key: Key, r: nat, i: nat)
    requires Tree(t) && |ch| == |t| && p < |t| && 0 < i < |t| && r < |t| && KeyOf(t[r]) == key
    requires if t[i] == Link(p, key.0, key.1) then r == i else Known(t, ch, i)
    ensures Known(t, Put(ch, p, key, r), i)
  {
  }

  lemma {:induction false} EntryKept(t: seq<Link>, l: Link, p: nat, key: Key, c: nat)
    requires Tree(t) && Tree(t + [l]) && p < |t| && Entry(t, p, key, c)
    ensures Entry(t + [l], p, key, c)
  {
    ChainKept(t, l, p, key);
  }

  lemma {:induction false} EntriesKept(t: seq<Link>, ch: Table, l: Link)
    requires Tree(t) && Tree(t + [l]) && Entries(t, ch)
    ensures Entries(t + [l], ch + [map[]])
  {
    hide Entry;
    forall p: nat, key: Key | p < |t| && key in ch[p]
      ensures Entry(t + [l], p, key, ch[p][key])
    {
      EntryKept(t, l, p, key, ch[p][key]);
    }
  }

  class Manager {
    var links: seq<Link>
    var children: Table
    var statistics: seq<int>
    var counts: seq<int>
    var summary: seq<int>

    ghost predicate Shape()
      reads this
    {
      && Tree(links) && NoRepeat(links) && Unique(links) && Entries(links, children)
      && |children| == |statistics| == |counts| == |summary| == |links|
    }

    ghost predicate Valid()
      reads this
    {
      Shape() && forall i :: 0 < i < |links| ==> Known(links, children, i)
    }

    constructor ()
      ensures Valid() && links == [Link(0, 0, 0)] && statistics == counts == summary == [0]
    {
      links := [Link(0, 0, 0)];
      children := [map[]];
      statistics, counts, summary := [0], [0], [0];
    }

    /** computeCallPath */
    method ComputeCallPath(parent: nat, cs: nat, f: nat) returns (r: nat)
      requires Shape() && parent < |links| && f != 0 && Link(parent, cs, f) !in links
      modifies this
      ensures Shape() && parent < |links| && Entry(links, parent, (cs, f), r)
      ensures Grown(old(links), parent, cs, f, links, r) && summary[0] == old(summary[0])
      ensures |children| == |links| && children[..|old(links)|] == old(children)
      ensures statistics == old(statistics) + seq(|links| - |old(links)|, i => 0)
      ensures counts == old(counts) + seq(|links| - |old(links)|, i => 0)
    {
      hide NoRepeat, Unique, Entries;
      var found := FindOnChain(links, parent, (cs, f));
      if found.Some? {
        return found.value;
      }
      var l := Link(parent, cs, f);
      Grow(links, l);
      EntriesKept(links, children, l);
      ChainKept(links, l, parent, (cs, f));
      r := |links|;
      links := links + [l];
      children := children + [map[]];
      statistics, counts, summary := statistics + [0], counts + [0], summary + [0];
    }

    /** getCallPath; no parent means the root. */
    method GetCallPath(parent: Option<nat>, cs: nat, f: nat) returns (r: nat)
      requires Valid() && (parent.Some? ==> parent.value < |links|) && f != 0
      modifies this
      ensures Valid() && Grown(old(links), ParentOf(parent), cs, f, links, r) && KeyOf(links[r]) == (cs, f)
      ensures old(links) <= links && r < |links|
      ensures Chain(links, r) == Called(if parent.Some? then old(Chain(links, parent.value)) else [], (cs, f))
      ensures statistics == old(statistics) + seq(|links| - |old(links)|, i => 0)
      ensures counts == old(counts) + seq(|links| - |old(links)|, i => 0)
      ensures summary[0] == old(summary[0])
    {
      hide NoRepeat, Unique, OnChain, Entries, Put, Chain, Called;
      var p, key := ParentOf(parent), (cs, f);
      RootChain(links);
      if key !in children[p] {
        ghost var t, was := links, children;
        KnownPair(links, children, p, cs, f);
        r := ComputeCallPath(p, cs, f);
        PutEntries(links, children, p, key, r);
        forall i | 0 < i < |links|
          ensures Known(links, Put(children, p, key, r), i)
        {
          if i < |t| {
            assert Known(t, was, i) && children[t[i].parent] == children[..|t|][t[i].parent];
          }
          PutKnown(links, children, p, key, r, i);
        }
        children := Put(children, p, key, r);
      } else {
        r := children[p][key];
        Look(links, children, p, key);
        EntryGrown(links, p, cs, f, r);
      }
      GrownChain(old(links), p, cs, f, links, r);
    }

    /** What the executor does to a node between calls. */
    method Record(i: nat, amount: int)
      requires Valid() && i < |links|
      modifies this`statistics, this`counts
      ensures Valid() && statistics == old(statistics)[i := old(statistics[i]) + amount]
      ensures counts == old(counts)[i := old(counts[i]) + 1]
    {
      statistics := statistics[i := statistics[i] + amount];
      counts := counts[i := counts[i] + 1];
    }

    /** getSummaryStatistics: every path gets the sum of its whole subtree and every cell of the table the sums
        over its paths. The root's summary is not reset: it grows with each call. */
    method GetSummaryStatistics() returns (results: map<Key, Info>)
      requires Valid()
      modifies this`summary
      ensures Valid()
      ensures forall i :: 0 < i < |links| ==> summary[i] == Total(links, statistics, i, 0)
      ensures summary[0] == old(summary[0]) + Total(links, statistics, 0, 1)
      ensures forall key :: key in results <==> Occurs(links, key, 1)
      ensures forall key :: key in results ==> results[key] == Info(Cell(links, counts, key, 1), Cell(links, summary, key, 1))
    {
      hide NoRepeat, Unique, Entries, Known, Total, Swept, Added, Cell, Occurs;
      var n := |links|;
      summary := [summary[0]] + statistics[1..];
      ghost var base := summary;
      results := map[];
      var m := n;
      SweepStart(links, statistics, counts, base);
      while m > 1
        invariant 1 <= m <= n && |summary| == n && base == [old(summary[0])] + statistics[1..]
        invariant Swept(links, statistics, base, m, summary)
        invariant Tabled(links, counts, summary, m, results)
      {
        m := m - 1;
        SweepStep(links, statistics, base, m, summary);
        ghost var was := summary;
        var p := links[m].parent;
        summary := summary[p := summary[p] + summary[m]];
        TableStep(links, counts, was, summary, m, results);
        results := Added(results, KeyOf(links[m]), counts[m], summary[m]);
      }
      SweepDone(links, statistics, base, summary);
    }
  }

  lemma {:induction false} KnownPair(t: seq<Link>, ch: Table, p: nat, cs: nat, f: nat)
    requires Tree(t) && |ch| == |t| && p < |t| && f != 0
    requires forall i :: 0 < i < |t| ==> Known(t, ch, i)
    ensures Link(p, cs, f) in t ==> (cs, f) in ch[p]
  {
    if Link(p, cs, f) in t {
      var i :| 0 <= i < |t| && t[i] == Link(p, cs, f);
      assert Known(t, ch, i);
    }
  }

  lemma {:induction false} Look(t: seq<Link>, ch: Table, p: nat, key: Key)
    requires Tree(t) && Entries(t, ch) && p < |t| && key in ch[p]
    ensures Entry(t, p, key, ch[p][key])
  {
  }

  /** The walk up the chain. */
  method FindOnChain(t: seq<Link>, parent: nat, key: Key) returns (found: Option<nat>)
    requires Tree(t) && parent < |t|
    ensures found == if OnChain(t, parent, key) then Some(Nearest(t, parent, key)) else None
  {
    var p: nat := parent;
    var done := false;
    while !done
      invariant p < |t|
      invariant OnChain(t, parent, key) == (!done && OnChain(t, p, key))
      invariant OnChain(t, parent, key) ==> Nearest(t, parent, key) == Nearest(t, p, key)
      decreases !done, p
    {
      if KeyOf(t[p]) == key {
        return Some(p);
      }
      done := p == 0;
      p := t[p].parent;
    }
    return None;
  }

  function ParentOf(parent: Option<nat>): nat { if parent.None? then 0 else parent.value }

  /** The tree after a path for (cs, f) under `parent` has been asked for: a new node only where the pair is
      neither on the chain nor already below `parent`. */
  ghost predicate Grown(t: seq<Link>, parent: nat, cs: nat, f: nat, u: seq<Link>, r: nat)
    requires Tree(t) && parent < |t|
  {
    var l := Link(parent, cs, f);
    if OnChain(t, parent, (cs, f)) then u == t && r == Nearest(t, parent, (cs, f))
    else if l in t then u == t && r < |t| && t[r] == l
    else u == t + [l] && r == |t|
  }

  // --- The sweep from the leaves ------------------------------------------------------------------------------

  /** Where the sweep stands once the paths from `m` on have been added to their parents. */
  ghost predicate Swept(t: seq<Link>, v: seq<int>, base: seq<int>, m: nat, s: seq<int>)
  {
    && Tree(t) && |v| == |base| == |s| == |t| && 0 < m <= |t|
    && forall i :: 0 <= i < |t| ==> s[i] == base[i] + Children(t, v, i, if m <= i then i + 1 else m)
  }

  lemma {:induction false} SweepStep(t: seq<Link>, v: seq<int>, base: seq<int>, m: nat, s: seq<int>)
    requires 0 < m < |t| && Swept(t, v, base, m + 1, s) && base[1..] == v[1..]
    ensures var p := t[m].parent; p < m && Swept(t, v, base, m, s[p := s[p] + s[m]])
    ensures s[m] == Subtree(t, v, m)
  {
    var p := t[m].parent;
    assert base[m] == base[1..][m - 1] == v[m];
    assert s[m] == Subtree(t, v, m);
    var s' := s[p := s[p] + s[m]];
    forall i | 0 <= i < |t|
      ensures s'[i] == base[i] + Children(t, v, i, if m <= i then i + 1 else m)
    {
      if i < m {
        assert Children(t, v, i, m) == (if p == i then Subtree(t, v, m) else 0) + Children(t, v, i, m + 1);
      }
    }
  }

  /** The table over the paths from `m` on. */
  ghost predicate Tabled(t: seq<Link>, counts: seq<int>, s: seq<int>, m: nat, results: map<Key, Info>)
  {
    && |counts| == |s| == |t| && m <= |t|
    && (forall key :: key in results <==> Occurs(t, key, m))
    && (forall key :: key in results ==> results[key] == Info(Cell(t, counts, key, m), Cell(t, s, key, m)))
  }

  function Added(results: map<Key, Info>, key: Key, count: int, statistics: int): map<Key, Info>
  {
    var info := if key in results then results[key] else Info(0, 0);
    results[key := Info(info.count + count, info.statistics + statistics)]
  }

  lemma {:induction false} SweepStart(t: seq<Link>, v: seq<int>, counts: seq<int>, base: seq<int>)
    requires Tree(t) && |v| == |counts| == |base| == |t|
    ensures Swept(t, v, base, |t|, base) && Tabled(t, counts, base, |t|, map[])
  {
    forall i | 0 <= i < |t|
      ensures base[i] == base[i] + Children(t, v, i, |t|)
    {
    }
  }

  lemma {:induction false} CellSame(t: seq<Link>, s: seq<int>, s': seq<int>, key: Key, m: nat)
    requires |s| == |s'| == |t| && m <= |t| && forall j :: m <= j < |t| ==> s[j] == s'[j]
    ensures Cell(t, s, key, m) == Cell(t, s', key, m)
    decreases |t| - m
  {
    if m < |t| {
      CellSame(t, s, s', key, m + 1);
    }
  }

  lemma {:induction false} CellNone(t: seq<Link>, s: seq<int>, key: Key, m: nat)
    requires |s| == |t| && m <= |t| && !Occurs(t, key, m)
    ensures Cell(t, s, key, m) == 0
    decreases |t| - m
  {
    if m < |t| {
      assert !Occurs(t, key, m + 1);
      CellNone(t, s, key, m + 1);
    }
  }

  lemma {:induction false} OccursStep(t: seq<Link>, key: Key, m: nat)
    requires m < |t|
    ensures Occurs(t, key, m) <==> KeyOf(t[m]) == key || Occurs(t, key, m + 1)
  {
  }

  lemma {:induction false} TableStep(t: seq<Link>, counts: seq<int>, s: seq<int>, s': seq<int>, m: nat, results: map<Key, Info>)
    requires m < |t| && |s'| == |t| && Tabled(t, counts, s, m + 1, results)
    requires forall j :: m <= j < |t| ==> s[j] == s'[j]
    ensures Tabled(t, counts, s', m, Added(results, KeyOf(t[m]), counts[m], s'[m]))
  {
    hide Occurs;
    var after := Added(results, KeyOf(t[m]), counts[m], s'[m]);
    forall key
      ensures key in after <==> Occurs(t, key, m)
      ensures key in after ==> after[key] == Info(Cell(t, counts, key, m), Cell(t, s', key, m))
    {
      OccursStep(t, key, m);
      CellSame(t, s, s', key, m + 1);
      if key !in results {
        CellNone(t, counts, key, m + 1);
        CellNone(t, s, key, m + 1);
      }
    }
  }

  lemma {:induction false} SweepDone(t: seq<Link>, v: seq<int>, base: seq<int>, s: seq<int>)
    requires Swept(t, v, base, 1, s) && base[1..] == v[1..]
    ensures forall i :: 0 < i < |t| ==> s[i] == Total(t, v, i, 0)
    ensures s[0] == base[0] + Total(t, v, 0, 1)
  {
    hide Total, Above, Through;
    forall i | 0 < i < |t|
      ensures s[i] == Total(t, v, i, 0)
    {
      assert base[i] == base[1..][i - 1] == v[i];
      assert s[i] == Subtree(t, v, i);
      SubtreeIsTotal(t, v, i);
    }
    ChildrenAreSpread(t, v, 0, 1);
    TotalSplit(t, v, 0, 1);
    ThroughAll(t, 0, 0);
  }

  // --- Whole runs --------------------------------------------------------------------------------------------------

  /** A request for a path, under an earlier node (or the root), and what is then recorded at the node. */
  datatype Call = Call(parent: Option<nat>, site: nat, callee: nat, amount: int)

  /** The tree, what is recorded at its nodes, and the node each request got. */
  datatype Paths = Paths(links: seq<Link>, statistics: seq<int>, counts: seq<int>, nodes: seq<nat>)

  predicate Callees(calls: seq<Call>)
  {
    forall c :: c in calls ==> c.callee != 0
  }

  /** A parent that is not there yet means the root. */
  function Existing(parent: Option<nat>, n: nat): Option<nat>
  {
    if parent.Some? && parent.value < n then parent else None
  }

  function Position(t: seq<Link>, l: Link): (i: nat)
    requires l in t
    ensures i < |t| && t[i] == l
  {
    if t[0] == l then 0 else 1 + Position(t[1..], l)
  }

  /** The tree and the node after one request: the nearest node with the pair on the chain, else the child with
      the pair, else a new child. */
  function Asked(t: seq<Link>, parent: nat, cs: nat, f: nat): (r: (seq<Link>, nat))
    requires Tree(t) && parent < |t| && f != 0
    ensures Tree(r.0) && |t| <= |r.0| && r.1 < |r.0| && KeyOf(r.0[r.1]) == (cs, f)
  {
    var l := Link(parent, cs, f);
    if OnChain(t, parent, (cs, f)) then (t, Nearest(t, parent, (cs, f)))
    else if l in t then (t, Position(t, l))
    else (t + [l], |t|)
  }

  predicate WellMade(s: Paths)
  {
    Tree(s.links) && |s.statistics| == |s.counts| == |s.links| && forall r :: r in s.nodes ==> r < |s.links|
  }

  /** One request and its record. */
  function After(s: Paths, c: Call): (u: Paths)
    requires WellMade(s) && c.callee != 0
    ensures WellMade(u) && |u.nodes| == |s.nodes| + 1
  {
    var (t, r) := Asked(s.links, ParentOf(Existing(c.parent, |s.links|)), c.site, c.callee);
    var zeros := seq(|t| - |s.links|, i => 0);
    var v, n := s.statistics + zeros, s.counts + zeros;
    Paths(t, v[r := v[r] + c.amount], n[r := n[r] + 1], s.nodes + [r])
  }

  /** All requests in order, from the root alone. */
  function Fold(calls: seq<Call>): (s: Paths)
    requires Callees(calls)
    ensures WellMade(s) && |s.nodes| == |calls|
  {
    if calls == [] then Paths([Link(0, 0, 0)], [0], [0], [])
    else After(Fold(calls[..|calls| - 1]), calls[|calls| - 1])
  }

  /** What the requests that got node `i` recorded, and how many they were. */
  function Amounts(calls: seq<Call>, nodes: seq<nat>, i: nat): int
    requires |nodes| == |calls|
  {
    if calls == [] then 0
    else
      var n := |calls| - 1;
      Amounts(calls[..n], nodes[..n], i) + if nodes[n] == i then calls[n].amount else 0
  }

  function Requests(calls: seq<Call>, nodes: seq<nat>, i: nat): int
    requires |nodes| == |calls|
  {
    if calls == [] then 0
    else
      var n := |calls| - 1;
      Requests(calls[..n], nodes[..n], i) + if nodes[n] == i then 1 else 0
  }

  /** Nothing recorded is lost or moved: every node holds what its own requests recorded. */
  lemma {:induction false} Conserved(calls: seq<Call>, i: nat)
    requires Callees(calls) && i < |Fold(calls).links|
    ensures var s := Fold(calls);
      s.statistics[i] == Amounts(calls, s.nodes, i) && s.counts[i] == Requests(calls, s.nodes, i)
  {
    hide After;
    if calls != [] {
      var n := |calls| - 1;
      var before, s := Fold(calls[..n]), Fold(calls);
      AfterAt(before, calls[n], i);
      if i < |before.links| {
        Conserved(calls[..n], i);
      } else {
        NotYet(calls[..n], before.nodes, i, |before.links|);
      }
    }
  }

  lemma {:induction false} AfterAt(s: Paths, c: Call, i: nat)
    requires WellMade(s) && c.callee != 0 && i < |After(s, c).links|
    ensures var u := After(s, c); var r := u.nodes[|s.nodes|];
      && u.nodes[..|s.nodes|] == s.nodes
      && u.statistics[i] == (if i < |s.links| then s.statistics[i] else 0) + (if r == i then c.amount else 0)
      && u.counts[i] == (if i < |s.links| then s.counts[i] else 0) + (if r == i then 1 else 0)
  {
    hide Asked;
  }

  lemma {:induction false} FoldNone(calls: seq<Call>)
    requires calls == []
    ensures Fold(calls) == Paths([Link(0, 0, 0)], [0], [0], [])
  {
  }

  lemma {:induction false} FoldNext(calls: seq<Call>, i: nat)
    requires Callees(calls) && i < |calls|
    ensures calls[i].callee != 0 && Fold(calls[..i + 1]) == After(Fold(calls[..i]), calls[i])
  {
    hide After;
    assert calls[..i + 1][..i] == calls[..i];
  }

  /** The fold's step, put together as the manager does it. */
  lemma {:induction false} AfterIs(s: Paths, c: Call, t: seq<Link>, r: nat, v: seq<int>, n: seq<int>)
    requires WellMade(s) && c.callee != 0
    requires (t, r) == Asked(s.links, ParentOf(Existing(c.parent, |s.links|)), c.site, c.callee)
    requires v == s.statistics + seq(|t| - |s.links|, i => 0) && n == s.counts + seq(|t| - |s.links|, i => 0)
    ensures After(s, c) == Paths(t, v[r := v[r] + c.amount], n[r := n[r] + 1], s.nodes + [r])
  {
    hide Asked;
  }

  lemma {:induction false} NotYet(calls: seq<Call>, nodes: seq<nat>, i: nat, m: nat)
    requires |nodes| == |calls| && m <= i && forall r :: r in nodes ==> r < m
    ensures Amounts(calls, nodes, i) == Requests(calls, nodes, i) == 0
  {
    if calls != [] {
      var n := |calls| - 1;
      assert nodes[n] in nodes && forall r :: r in nodes[..n] ==> r in nodes;
      NotYet(calls[..n], nodes[..n], i, m);
    }
  }

  // --- Paths as lists of pairs ---------------------------------------------------------------------------------

  /** The pairs from the root down to node `p`. */
  function Chain(t: seq<Link>, p: nat): seq<Key>
    requires Tree(t) && p < |t|
  {
    if p == 0 then [] else Chain(t, t[p].parent) + [KeyOf(t[p])]
  }

  /** A call from the end of the path `ks`: recursion goes back to the last place of the pair. */
  function Called(ks: seq<Key>, key: Key): seq<Key>
  {
    if key in ks then UpTo(ks, key) else ks + [key]
  }

  function UpTo(ks: seq<Key>, key: Key): seq<Key>
    requires key in ks
  {
    if ks[|ks| - 1] == key then ks else UpTo(ks[..|ks| - 1], key)
  }

  lemma {:induction false} ChainSame(t: seq<Link>, u: seq<Link>, p: nat)
    requires Tree(t) && Tree(u) && t <= u && p < |t|
    ensures Chain(u, p) == Chain(t, p)
  {
    if p > 0 {
      ChainSame(t, u, t[p].parent);
    }
  }

  lemma {:induction false} OnChainIs(t: seq<Link>, p: nat, key: Key)
    requires Tree(t) && p < |t| && key.1 != 0
    ensures OnChain(t, p, key) <==> key in Chain(t, p)
    ensures OnChain(t, p, key) ==> Chain(t, Nearest(t, p, key)) == UpTo(Chain(t, p), key)
  {
    if p > 0 {
      OnChainIs(t, t[p].parent, key);
      var front := Chain(t, t[p].parent);
      assert Chain(t, p)[..|front|] == front;
    }
  }

  lemma {:induction false} RootChain(t: seq<Link>)
    requires Tree(t)
    ensures Chain(t, 0) == []
  {
  }

  lemma {:induction false} EntryGrown(t: seq<Link>, p: nat, cs: nat, f: nat, r: nat)
    requires Tree(t) && p < |t| && Entry(t, p, (cs, f), r)
    ensures Grown(t, p, cs, f, t, r)
  {
  }

  lemma {:induction false} GrownChain(t: seq<Link>, p: nat, cs: nat, f: nat, u: seq<Link>, r: nat)
    requires Tree(t) && Tree(u) && p < |t| && f != 0 && Grown(t, p, cs, f, u, r)
    ensures t <= u && r < |u| && KeyOf(u[r]) == (cs, f) && Chain(u, r) == Called(Chain(t, p), (cs, f))
  {
    OnChainIs(t, p, (cs, f));
    if !OnChain(t, p, (cs, f)) {
      assert u[r] == Link(p, cs, f) && t[0].callee == 0;
      ChainSame(t, u, p);
    }
  }

  /** Different nodes have different paths. */
  lemma {:induction false} ChainsDiffer(t: seq<Link>, p: nat, q: nat)
    requires Tree(t) && Unique(t) && p < |t| && q < |t| && Chain(t, p) == Chain(t, q)
    ensures p == q
  {
    if p == 0 || q == 0 {
      assert |Chain(t, p)| == 0;
    } else {
      var a, b := Chain(t, t[p].parent), Chain(t, t[q].parent);
      assert Chain(t, p)[..|a|] == a && Chain(t, q)[..|b|] == b;
      assert Chain(t, p)[|a|] == KeyOf(t[p]) && Chain(t, q)[|b|] == KeyOf(t[q]);
      ChainsDiffer(t, t[p].parent, t[q].parent);
    }
  }

  lemma {:induction false} AskedChain(t: seq<Link>, p: nat, cs: nat, f: nat)
    requires Tree(t) && p < |t| && f != 0
    ensures var (u, r) := Asked(t, p, cs, f); t <= u && Chain(u, r) == Called(Chain(t, p), (cs, f))
  {
    OnChainIs(t, p, (cs, f));
    var (u, r) := Asked(t, p, cs, f);
    if !OnChain(t, p, (cs, f)) {
      assert u[r] == Link(p, cs, f) && t[0].callee == 0;
      ChainSame(t, u, p);
    }
  }

  /** The path of the parent a request names, or the root's. */
  function ParentPath(calls: seq<Call>, i: nat, t: seq<Link>): seq<Key>
    requires Callees(calls) && i < |calls| && Tree(t)
  {
    match calls[i].parent
    case None => []
    case Some(p) => if p < |Fold(calls[..i]).links| && p < |t| then Chain(t, p) else []
  }

  lemma {:induction false} FoldGrows(calls: seq<Call>, i: nat)
    requires Callees(calls) && i <= |calls|
    ensures Fold(calls[..i]).links <= Fold(calls).links && Fold(calls[..i]).nodes <= Fold(calls).nodes
    decreases |calls| - i
  {
    hide After;
    if i == |calls| {
      assert calls[..i] == calls;
    } else {
      FoldGrows(calls, i + 1);
      FoldNext(calls, i);
      AfterGrows(Fold(calls[..i]), calls[i]);
    }
  }

  lemma {:induction false} AfterGrows(s: Paths, c: Call)
    requires WellMade(s) && c.callee != 0
    ensures s.links <= After(s, c).links && s.nodes <= After(s, c).nodes
  {
    hide Asked;
    AskedChain(s.links, ParentOf(Existing(c.parent, |s.links|)), c.site, c.callee);
  }

  /** Every request gets the node whose path is the call made from the end of its parent's path. */
  lemma {:induction false} RequestPath(calls: seq<Call>, i: nat)
    requires Callees(calls) && i < |calls|
    ensures var s := Fold(calls);
      && s.nodes[i] < |s.links|
      && Chain(s.links, s.nodes[i]) == Called(ParentPath(calls, i, s.links), (calls[i].site, calls[i].callee))
  {
    var c, s, u, v := calls[i], Fold(calls[..i]), Fold(calls[..i + 1]), Fold(calls);
    FoldGrows(calls, i);
    FoldGrows(calls, i + 1);
    FoldNext(calls, i);
    var p := ParentOf(Existing(c.parent, |s.links|));
    AskedChain(s.links, p, c.site, c.callee);
    assert v.nodes[i] == u.nodes[i] && u.nodes[i] in u.nodes;
    hide Asked, Fold;
    ChainSame(u.links, v.links, u.nodes[i]);
    ChainSame(s.links, v.links, p);
  }

  /** In the tree of a run a request gets one node. */
  lemma {:induction false} GrownIsAsked(t: seq<Link>, parent: nat, cs: nat, f: nat, u: seq<Link>, r: nat)
    requires Tree(t) && Unique(t) && parent < |t| && f != 0 && Grown(t, parent, cs, f, u, r)
    ensures (u, r) == Asked(t, parent, cs, f)
  {
    var l := Link(parent, cs, f);
    if !OnChain(t, parent, (cs, f)) && l in t {
      var i := Position(t, l);
      assert t[i] == t[r] == l && t[0].callee == 0;
    }
  }

  /** Over any sequence of requests: the tree, the records and the nodes are those of the fold; parents come first,
      no pair repeats on a chain, no two children are alike; the summary is the sum over subtrees, and every cell
      the sums over its paths. */
  method Run(calls: seq<Call>) returns (s: Paths, sums: seq<int>, results: map<Key, Info>)
    requires Callees(calls)
    ensures s == Fold(calls) && NoRepeat(s.links) && Unique(s.links) && |sums| == |s.links|
    ensures forall i :: 0 < i < |sums| ==> sums[i] == Total(s.links, s.statistics, i, 0)
    ensures sums[0] == Total(s.links, s.statistics, 0, 1)
    ensures forall key :: key in results <==> Occurs(s.links, key, 1)
    ensures forall key :: key in results ==>
      results[key] == Info(Cell(s.links, s.counts, key, 1), Cell(s.links, sums, key, 1))
    ensures forall i :: 0 <= i < |calls| ==> s.nodes[i] < |s.links|
    ensures forall i :: 0 <= i < |calls| ==>
      Chain(s.links, s.nodes[i]) == Called(ParentPath(calls, i, s.links), (calls[i].site, calls[i].callee))
  {
    hide NoRepeat, Unique, Total, Cell, Occurs, Entries, Known, Asked, Grown, After, Fold;
    var manager := new Manager();
    var nodes: seq<nat> := [];
    FoldNone(calls[..0]);
    for i := 0 to |calls|
      invariant manager.Valid() && manager.summary[0] == 0
      invariant Paths(manager.links, manager.statistics, manager.counts, nodes) == Fold(calls[..i])
    {
      var c := calls[i];
      FoldNext(calls, i);
      var parent := Existing(c.parent, |manager.links|);
      ghost var s0 := Paths(manager.links, manager.statistics, manager.counts, nodes);
      var node := manager.GetCallPath(parent, c.site, c.callee);
      GrownIsAsked(s0.links, ParentOf(parent), c.site, c.callee, manager.links, node);
      AfterIs(s0, c, manager.links, node, manager.statistics, manager.counts);
      manager.Record(node, c.amount);
      nodes := nodes + [node];
    }
    assert calls[..|calls|] == calls;
    results := manager.GetSummaryStatistics();
    s := Paths(manager.links, manager.statistics, manager.counts, nodes);
    sums := manager.summary;
    forall i | 0 <= i < |calls|
      ensures s.nodes[i] < |s.links|
      ensures Chain(s.links, s.nodes[i]) == Called(ParentPath(calls, i, s.links), (calls[i].site, calls[i].callee))
    {
      RequestPath(calls, i);
    }
  }
}
