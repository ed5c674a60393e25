/** The last part of Camellia's key setup (camellia_setup_tail): kw2 and kw4 are absorbed into the
    other subkeys, and every key moves to the output of the round function before its own. Left and
    right words of a subkey are one `Half`. */
module CamelliaSetup {
  import opened CamelliaHalves
  import opened Camellia
  import opened Xor

  /** A difference pushed through a layer as lines 499, 508, 521, 530, 549 and 558 group it: the
      unparenthesised rotation makes it `(d.r ^ w << 1) | w >> 31`. */
  function LoosePush(d: Half, k: Half): Half
  {
    var l := X32(d.l, AndNot(d.r, k.r));
    Half(l, LooseRotate(d.r, And(l, k.l)))
  }

  function LooseRotate(r: bv32, w: bv32): bv32 { (r ^ (w << 1)) | (w >> 31) }
  function CommonBit(r: bv32, w: bv32): bv32 { (r & 1) & (w >> 31) }

  /** Whether the bit rotated in meets a bit already there. */
  predicate Collides(d: Half, k: Half)
  {
    d.r & 1 == 1 && And(X32(d.l, AndNot(d.r, k.r)), k.l) >> 31 == 1
  }

  /** What a collision adds to the pushed difference. */
  function Slip(d: Half, k: Half): Half
  {
    if Collides(d, k) then ONE else ZERO
  }

  lemma {:induction false} LooseRotateIs(r: bv32, w: bv32)
    ensures LooseRotate(r, w) == X32(X32(r, Rol1(w)), CommonBit(r, w))
  {
    calc {
      LooseRotate(r, w);
      (r ^ (w << 1)) | (w >> 31);
      { LooseBits(r, w); }
      (r ^ ((w << 1) | (w >> 31))) ^ ((r & 1) & (w >> 31));
      X32(X32(r, Rol1(w)), CommonBit(r, w));
    }
  }

  lemma {:induction false} LooseBits(r: bv32, w: bv32)
    ensures (r ^ (w << 1)) | (w >> 31) == (r ^ ((w << 1) | (w >> 31))) ^ ((r & 1) & (w >> 31))
  {
  }

  lemma {:induction false} CommonBitIs(r: bv32, w: bv32)
    ensures CommonBit(r, w) == if r & 1 == 1 && w >> 31 == 1 then 1 else 0
  {
  }

  lemma {:induction false} LoosePushIs(d: Half, k: Half)
    ensures LoosePush(d, k) == X(Push(d, k), Slip(d, k))
  {
    var l := X32(d.l, AndNot(d.r, k.r));
    LooseRotateIs(d.r, And(l, k.l));
    CommonBitIs(d.r, And(l, k.l));
    hide LooseRotate, Rol1, CommonBit, And, AndNot;
    assert X32(l, 0) == l;
  }

  // --- The absorbed keys ----------------------------------------------------------------------

  /** What the even-numbered rounds of group `g` absorb of kw2. */
  function RightCarry(s: seq<Half>, g: nat): Half
    requires 8 * g + 1 < |s|
  {
    if g == 0 then s[1] else Push(RightCarry(s, g - 1), s[8 * g + 1])
  }

  /** What the odd-numbered rounds of group `g` absorb of kw4. */
  function LeftCarry(s: seq<Half>, n: nat, g: nat): Half
    requires Subkeys(s, n) && g < n
    decreases n - g
  {
    if g == n - 1 then s[8 * n + 1] else Push(LeftCarry(s, n, g + 1), s[8 * g + 8])
  }

  /** Entry `j` once kw2 has been absorbed by the groups below `g`. */
  ghost function RightDone(s: seq<Half>, n: nat, g: nat, j: nat): Half
    requires Subkeys(s, n) && g <= n && j < |s|
  {
    if j == 1 then RightCarry(s, if g < n then g else n - 1)
    else if j < 8 * g && j % 8 in {3, 5, 7} then X(s[j], RightCarry(s, j / 8))
    else s[j]
  }

  /** Entry `j` once kw4 has been absorbed by the groups from `g` on. */
  ghost function LeftDone(s: seq<Half>, n: nat, g: nat, j: nat): Half
    requires Subkeys(s, n) && g <= n && j < |s|
  {
    if 8 * g < j < 8 * n && j % 8 in {2, 4, 6} then X(s[j], LeftCarry(s, n, j / 8))
    else if j == 8 * n then X(s[j], RightCarry(s, n - 1))
    else RightDone(s, n, n, j)
  }

  lemma {:induction false} RightNext(s: seq<Half>, n: nat, g: nat, j: nat)
    requires Subkeys(s, n) && g < n && j < |s|
    ensures RightDone(s, n, g + 1, j)
         == if j == 1 && g < n - 1 then Push(RightCarry(s, g), s[8 * g + 9])
            else if j == 8 * g + 3 || j == 8 * g + 5 || j == 8 * g + 7 then X(RightDone(s, n, g, j), RightCarry(s, g))
            else RightDone(s, n, g, j)
  {
    hide X, Push;
  }

  lemma {:induction false} RightBefore(s: seq<Half>, n: nat, g: nat)
    requires Subkeys(s, n) && g < n
    ensures RightDone(s, n, g, 1) == RightCarry(s, g)
    ensures g < n - 1 ==> RightDone(s, n, g, 8 * g + 9) == s[8 * g + 9]
  {
    hide X, Push;
  }

  method RightGroup(sub: array<Half>, g: nat, n: nat, ghost s: seq<Half>)
    requires Subkeys(s, n) && g < n && sub.Length == |s|
    requires forall j :: 0 <= j < |s| ==> sub[j] == RightDone(s, n, g, j)
    modifies sub
    ensures forall j :: 0 <= j < |s| ==> sub[j] == RightDone(s, n, g + 1, j)
  {
    hide X, Push, RightDone, RightCarry;
    RightBefore(s, n, g);
    forall j | 0 <= j < |s| { RightNext(s, n, g, j); }
    sub[8 * g + 3] := X(sub[8 * g + 3], sub[1]);
    sub[8 * g + 5] := X(sub[8 * g + 5], sub[1]);
    sub[8 * g + 7] := X(sub[8 * g + 7], sub[1]);
    if g < n - 1 {
      sub[1] := Push(sub[1], sub[8 * g + 9]);
    }
  }

  lemma {:induction false} LeftNext(s: seq<Half>, n: nat, g: nat, j: nat)
    requires Subkeys(s, n) && g < n && j < |s|
    ensures LeftDone(s, n, g, j)
         == if j == 8 * g + 2 || j == 8 * g + 4 || j == 8 * g + 6 then X(LeftDone(s, n, g + 1, j), LeftCarry(s, n, g))
            else LeftDone(s, n, g + 1, j)
  {
    hide X, Push;
  }

  lemma {:induction false} LeftBefore(s: seq<Half>, n: nat, g: nat)
    requires Subkeys(s, n) && g < n
    ensures 0 < g ==> LeftDone(s, n, g + 1, 8 * g) == s[8 * g]
  {
    hide X, Push;
  }

  method LeftGroup(sub: array<Half>, kw4: Half, g: nat, n: nat, ghost s: seq<Half>) returns (next: Half)
    requires Subkeys(s, n) && g < n && sub.Length == |s| && kw4 == LeftCarry(s, n, g)
    requires forall j :: 0 <= j < |s| ==> sub[j] == LeftDone(s, n, g + 1, j)
    modifies sub
    ensures forall j :: 0 <= j < |s| ==> sub[j] == LeftDone(s, n, g, j)
    ensures next == if g == 0 then LeftCarry(s, n, 0) else LeftCarry(s, n, g - 1)
  {
    hide X, Push, LeftDone;
    LeftBefore(s, n, g);
    forall j | 0 <= j < |s| { LeftNext(s, n, g, j); }
    sub[8 * g + 6] := X(sub[8 * g + 6], kw4);
    sub[8 * g + 4] := X(sub[8 * g + 4], kw4);
    sub[8 * g + 2] := X(sub[8 * g + 2], kw4);
    next := kw4;
    if g > 0 {
      next := Push(kw4, sub[8 * g]);
    }
  }

  /** Entry `j` once both are absorbed. */
  ghost function Absorbed(s: seq<Half>, n: nat, j: nat): Half
    requires Subkeys(s, n) && j < |s|
  {
    if j == 0 then X(s[0], LeftCarry(s, n, 0)) else LeftDone(s, n, 0, j)
  }

  lemma {:induction false} AbsorbedAt(s: seq<Half>, n: nat, g: nat)
    requires Subkeys(s, n) && g < n
    ensures var u := LeftCarry(s, n, g);
      Absorbed(s, n, 8 * g + 2) == X(s[8 * g + 2], u) && Absorbed(s, n, 8 * g + 4) == X(s[8 * g + 4], u) &&
      Absorbed(s, n, 8 * g + 6) == X(s[8 * g + 6], u)
    ensures var v := RightCarry(s, g);
      Absorbed(s, n, 8 * g + 3) == X(s[8 * g + 3], v) && Absorbed(s, n, 8 * g + 5) == X(s[8 * g + 5], v) &&
      Absorbed(s, n, 8 * g + 7) == X(s[8 * g + 7], v)
    ensures g < n - 1 ==> Absorbed(s, n, 8 * g + 8) == s[8 * g + 8] && Absorbed(s, n, 8 * g + 9) == s[8 * g + 9]
  {
    hide X, Push, LeftCarry, RightCarry;
  }

  // --- The keys moved ----------------------------------------------------------------------------

  /** The slips of group `g`, in terms of the subkeys given. */
  function RightSlip(s: seq<Half>, n: nat, g: nat): Half
    requires Subkeys(s, n) && g < n
  {
    if g == 0 then ZERO else Slip(X(s[8 * g - 1], RightCarry(s, g - 1)), s[8 * g + 1])
  }

  function LeftSlip(s: seq<Half>, n: nat, g: nat): Half
    requires Subkeys(s, n) && g < n
  {
    if g == n - 1 then ZERO else Slip(X(s[8 * g + 10], LeftCarry(s, n, g + 1)), s[8 * g + 8])
  }

  /** The subkeys of group `g` as the code writes them, from the absorbed keys `a`. */
  ghost predicate Emitted(a: seq<Half>, n: nat, k: seq<Half>, g: nat)
    requires Subkeys(a, n) && 8 * n < |k| && g < n
  {
    && k[8 * g + 2] == (if g == 0 then a[3] else X(LoosePush(a[8 * g - 1], a[8 * g + 1]), a[8 * g + 3]))
    && k[8 * g + 3] == X(a[8 * g + 2], a[8 * g + 4])
    && k[8 * g + 4] == X(a[8 * g + 3], a[8 * g + 5])
    && k[8 * g + 5] == X(a[8 * g + 4], a[8 * g + 6])
    && k[8 * g + 6] == X(a[8 * g + 5], a[8 * g + 7])
    && k[8 * g + 7] == (if g == n - 1 then a[8 * g + 6] else X(a[8 * g + 6], LoosePush(a[8 * g + 10], a[8 * g + 8])))
    && (g < n - 1 ==> k[8 * g + 8] == a[8 * g + 8] && k[8 * g + 9] == a[8 * g + 9])
  }

  lemma {:induction false} Drop(p: Half, q: Half, v: Half)
    ensures X(X(p, v), X(q, v)) == X(p, q)
  {
    hide X;
    SwapPairs(p, v, q, v);
    Cancel(v, v);
    Cancel(X(p, q), v);
  }

  lemma {:induction false} DropSlip(p: Half, q: Half, v: Half, e: Half)
    ensures X(X(X(p, v), e), X(q, v)) == X(X(p, q), e) && X(X(q, v), X(X(p, v), e)) == X(X(q, p), e)
  {
    hide X;
    Drop(p, q, v);
    Drop(q, p, v);
    Assoc(X(p, v), e, X(q, v));
    Comm(e, X(q, v));
    Assoc(X(p, v), X(q, v), e);
    Assoc(X(q, v), X(p, v), e);
  }

  lemma {:induction false} Pushed(p: Half, v: Half, k: Half)
    ensures LoosePush(X(p, v), k) == X(X(Push(p, k), Push(v, k)), Slip(X(p, v), k))
  {
    hide X, Push, Slip, LoosePush;
    LoosePushIs(X(p, v), k);
    PushXor(p, v, k);
  }

  lemma {:induction false} FirstOfGroup(s: seq<Half>, n: nat, a: seq<Half>, k: seq<Half>, g: nat)
    requires Subkeys(s, n) && |a| == |s| && 8 * n < |k| && g < n && Emitted(a, n, k, g)
    requires forall j :: 0 <= j < |s| ==> a[j] == Absorbed(s, n, j)
    ensures k[8 * g + 2] == X(X(RightIn(s, g), s[8 * g + 3]), RightSlip(s, n, g))
  {
    hide X, Push, Slip, LoosePush, Absorbed;
    AbsorbedAt(s, n, g);
    if g == 0 {
      Comm(s[3], s[1]);
      Cancel(X(s[1], s[3]), ZERO);
    } else {
      var h := g - 1;
      AbsorbedAt(s, n, h);
      Pushed(s[8 * h + 7], RightCarry(s, h), s[8 * h + 9]);
      DropSlip(RightIn(s, g), s[8 * g + 3], RightCarry(s, g), RightSlip(s, n, g));
    }
  }

  lemma {:induction false} LastOfGroup(s: seq<Half>, n: nat, a: seq<Half>, k: seq<Half>, g: nat)
    requires Subkeys(s, n) && |a| == |s| && 8 * n < |k| && g < n && Emitted(a, n, k, g)
    requires forall j :: 0 <= j < |s| ==> a[j] == Absorbed(s, n, j)
    ensures k[8 * g + 7] == X(X(s[8 * g + 6], LeftOut(s, n, g)), LeftSlip(s, n, g))
  {
    hide X, Push, Slip, LoosePush, Absorbed;
    AbsorbedAt(s, n, g);
    if g == n - 1 {
      Cancel(X(s[8 * g + 6], s[8 * n + 1]), ZERO);
    } else {
      var h := g + 1;
      AbsorbedAt(s, n, h);
      Pushed(s[8 * h + 2], LeftCarry(s, n, h), s[8 * g + 8]);
      DropSlip(LeftOut(s, n, g), s[8 * g + 6], LeftCarry(s, n, g), LeftSlip(s, n, g));
    }
  }

  /** The subkeys of a group are the moved ones, but for the slips. */
  lemma {:induction false} EmittedIs(s: seq<Half>, n: nat, a: seq<Half>, k: seq<Half>, g: nat)
    requires Subkeys(s, n) && |a| == |s| && 8 * n < |k| && g < n && Emitted(a, n, k, g)
    requires forall j :: 0 <= j < |s| ==> a[j] == Absorbed(s, n, j)
    ensures Group(s, n, k, g, RightSlip(s, n, g), LeftSlip(s, n, g))
  {
    hide X, Push, Slip, LoosePush, Absorbed, RightSlip, LeftSlip, RightIn, LeftOut, RightCarry, LeftCarry;
    FirstOfGroup(s, n, a, k, g);
    LastOfGroup(s, n, a, k, g);
    AbsorbedAt(s, n, g);
    var u, v := LeftCarry(s, n, g), RightCarry(s, g);
    Drop(s[8 * g + 2], s[8 * g + 4], u);
    Drop(s[8 * g + 3], s[8 * g + 5], v);
    Drop(s[8 * g + 4], s[8 * g + 6], u);
    Drop(s[8 * g + 5], s[8 * g + 7], v);
  }

  method WriteMiddle(subkey: array<Half>, sub: array<Half>, at: nat)
    requires at + 8 <= sub.Length && at + 8 <= subkey.Length && subkey != sub
    modifies subkey
    ensures subkey[at + 3] == X(sub[at + 2], sub[at + 4]) && subkey[at + 4] == X(sub[at + 3], sub[at + 5])
    ensures subkey[at + 5] == X(sub[at + 4], sub[at + 6]) && subkey[at + 6] == X(sub[at + 5], sub[at + 7])
    ensures forall j :: 0 <= j < at + 3 ==> subkey[j] == old(subkey[j])
  {
    hide X;
    subkey[at + 3] := X(sub[at + 2], sub[at + 4]);
    subkey[at + 4] := X(sub[at + 3], sub[at + 5]);
    subkey[at + 5] := X(sub[at + 4], sub[at + 6]);
    subkey[at + 6] := X(sub[at + 5], sub[at + 7]);
  }

  method WriteLast(subkey: array<Half>, sub: array<Half>, at: nat, last: bool)
    requires at + 8 <= sub.Length && at + 8 <= subkey.Length && subkey != sub
    requires !last ==> at + 11 <= sub.Length && at + 10 <= subkey.Length
    modifies subkey
    ensures subkey[at + 7] == if last then sub[at + 6] else X(sub[at + 6], LoosePush(sub[at + 10], sub[at + 8]))
    ensures !last ==> subkey[at + 8] == sub[at + 8] && subkey[at + 9] == sub[at + 9]
    ensures forall j :: 0 <= j < at + 7 ==> subkey[j] == old(subkey[j])
  {
    hide X, LoosePush;
    if last {
      subkey[at + 7] := sub[at + 6];
    } else {
      subkey[at + 7] := X(sub[at + 6], LoosePush(sub[at + 10], sub[at + 8]));
      subkey[at + 8] := sub[at + 8];
      subkey[at + 9] := sub[at + 9];
    }
  }

  method WriteGroup(subkey: array<Half>, sub: array<Half>, g: nat, n: nat)
    requires Subkeys(sub[..], n) && g < n && 8 * n < subkey.Length && subkey != sub
    modifies subkey
    ensures Emitted(sub[..], n, subkey[..], g)
    ensures forall j :: 0 <= j < 8 * g + 2 ==> subkey[j] == old(subkey[j])
  {
    hide X, LoosePush;
    var at := 8 * g;
    if g == 0 {
      subkey[2] := sub[3];
    } else {
      subkey[at + 2] := X(LoosePush(sub[at - 1], sub[at + 1]), sub[at + 3]);
    }
    WriteMiddle(subkey, sub, at);
    WriteLast(subkey, sub, at, g == n - 1);
  }

  method EmitGroup(subkey: array<Half>, sub: array<Half>, g: nat, n: nat)
    requires Subkeys(sub[..], n) && g < n && 8 * n < subkey.Length && subkey != sub
    requires forall h :: 0 <= h < g ==> Emitted(sub[..], n, subkey[..], h)
    modifies subkey
    ensures forall h :: 0 <= h <= g ==> Emitted(sub[..], n, subkey[..], h)
    ensures subkey[0] == old(subkey[0])
  {
    hide Emitted;
    ghost var was := subkey[..];
    WriteGroup(subkey, sub, g, n);
    assert subkey[..8 * g + 2] == was[..8 * g + 2];
    forall h | 0 <= h < g
      ensures Emitted(sub[..], n, subkey[..], h)
    {
      EmittedKept(sub[..], n, was, subkey[..], h, 8 * g + 2);
    }
  }

  lemma {:induction false} EmittedKept(a: seq<Half>, n: nat, was: seq<Half>, now: seq<Half>, g: nat, from: nat)
    requires Subkeys(a, n) && 8 * n < |was| && |now| == |was| && g < n && 8 * g + 10 <= from <= |now| && g < n - 1
    requires now[..from] == was[..from] && Emitted(a, n, was, g)
    ensures Emitted(a, n, now, g)
  {
    hide X, LoosePush;
    assert forall j :: 0 <= j < from ==> now[j] == now[..from][j] == was[j];
  }

  // --- The whole of camellia_setup_tail ---------------------------------------------------------

  /** What camellia_setup_tail makes of the subkeys `s`. */
  ghost predicate Tail(s: seq<Half>, n: nat, k: seq<Half>)
    requires Subkeys(s, n) && 8 * n < |k|
  {
    Outer(s, n, k) && forall g :: 0 <= g < n ==> Group(s, n, k, g, RightSlip(s, n, g), LeftSlip(s, n, g))
  }

  lemma {:induction false} Start(s: seq<Half>, n: nat, j: nat)
    requires Subkeys(s, n) && j < |s|
    ensures RightDone(s, n, 0, j) == s[j]
  {
    hide X;
  }

  lemma {:induction false} Turn(s: seq<Half>, n: nat, j: nat)
    requires Subkeys(s, n) && j < |s|
    ensures RightDone(s, n, n, 1) == RightCarry(s, n - 1) && RightDone(s, n, n, 8 * n) == s[8 * n]
    ensures LeftDone(s, n, n, j) == if j == 8 * n then X(s[8 * n], RightCarry(s, n - 1)) else RightDone(s, n, n, j)
    ensures RightDone(s, n, n, 8 * n + 1) == s[8 * n + 1]
  {
    hide X, RightCarry;
  }

  method AbsorbRight(sub: array<Half>, max: nat, ghost s: seq<Half>)
    requires max in {24, 32} && s == sub[..] && |s| == max + 2
    modifies sub
    ensures forall j :: 0 <= j < |s| ==> sub[j] == LeftDone(s, max / 8, max / 8, j)
  {
    hide X, RightDone, LeftDone, RightCarry;
    var n := max / 8;
    forall j | 0 <= j < |s| { Start(s, n, j); }
    RightGroup(sub, 0, n, s);
    RightGroup(sub, 1, n, s);
    RightGroup(sub, 2, n, s);
    if max == 32 {
      RightGroup(sub, 3, n, s);
    }
    forall j | 0 <= j < |s| { Turn(s, n, j); }
    sub[max] := X(sub[max], sub[1]);
  }

  method AbsorbLeft(sub: array<Half>, max: nat, ghost s: seq<Half>)
    requires max in {24, 32} && |s| == max + 2 && sub.Length == |s|
    requires forall j :: 0 <= j < |s| ==> sub[j] == LeftDone(s, max / 8, max / 8, j)
    modifies sub
    ensures forall j :: 0 <= j < |s| ==> sub[j] == Absorbed(s, max / 8, j)
  {
    hide X, RightDone, LeftDone, RightCarry;
    var n := max / 8;
    Turn(s, n, 8 * n + 1);
    var kw4 := sub[max + 1];
    if max == 32 {
      kw4 := LeftGroup(sub, kw4, 3, n, s);
    }
    kw4 := LeftGroup(sub, kw4, 2, n, s);
    kw4 := LeftGroup(sub, kw4, 1, n, s);
    kw4 := LeftGroup(sub, kw4, 0, n, s);
    assert sub[0] == s[0] by { Zeroth(s, n); }
    sub[0] := X(sub[0], kw4);
  }

  lemma {:induction false} Zeroth(s: seq<Half>, n: nat)
    requires Subkeys(s, n)
    ensures LeftDone(s, n, 0, 0) == s[0]
  {
    hide X;
  }

  lemma {:induction false} AbsorbedEnds(s: seq<Half>, n: nat)
    requires Subkeys(s, n)
    ensures Absorbed(s, n, 0) == X(s[0], LeftCarry(s, n, 0)) && Absorbed(s, n, 8 * n) == X(s[8 * n], RightCarry(s, n - 1))
  {
    hide X, Push, LeftCarry, RightCarry;
  }

  lemma {:induction false} OuterIs(s: seq<Half>, n: nat, a: seq<Half>, k: seq<Half>)
    requires Subkeys(s, n) && |a| == |s| && 8 * n < |k|
    requires forall j :: 0 <= j < |s| ==> a[j] == Absorbed(s, n, j)
    requires k[0] == X(a[0], a[2]) && k[8 * n] == X(a[8 * n], a[8 * n - 1])
    ensures Outer(s, n, k)
  {
    hide X, Push, LeftCarry, RightCarry, Absorbed;
    AbsorbedAt(s, n, 0);
    AbsorbedAt(s, n, n - 1);
    AbsorbedEnds(s, n);
    Drop(s[0], s[2], LeftCarry(s, n, 0));
    Drop(s[8 * n], s[8 * n - 1], RightCarry(s, n - 1));
  }

  /** camellia_setup_tail: the subkeys written are the moved ones, but for a low bit wherever a
      rotated bit collided. */
  method SetupTail(subkey: array<Half>, sub: array<Half>, max: nat)
    requires max in {24, 32} && sub.Length == max + 2 && max < subkey.Length && subkey != sub
    modifies subkey, sub
    ensures Tail(old(sub[..]), max / 8, subkey[..])
  {
    hide X, Absorbed, Emitted, Group, Outer, LeftDone;
    ghost var s := sub[..];
    var n := max / 8;
    AbsorbRight(sub, max, s);
    AbsorbLeft(sub, max, s);
    subkey[0] := X(sub[0], sub[2]);
    EmitGroup(subkey, sub, 0, n);
    EmitGroup(subkey, sub, 1, n);
    EmitGroup(subkey, sub, 2, n);
    if max == 32 {
      EmitGroup(subkey, sub, 3, n);
    }
    Finish(subkey, sub, max, s);
  }

  method Finish(subkey: array<Half>, sub: array<Half>, max: nat, ghost s: seq<Half>)
    requires max in {24, 32} && |s| == max + 2 && sub.Length == |s| && max < subkey.Length && subkey != sub
    requires forall j :: 0 <= j < |s| ==> sub[j] == Absorbed(s, max / 8, j)
    requires subkey[0] == X(sub[0], sub[2])
    requires forall g :: 0 <= g < max / 8 ==> Emitted(sub[..], max / 8, subkey[..], g)
    modifies subkey
    ensures Tail(s, max / 8, subkey[..])
  {
    hide X, Absorbed, Emitted, Group, Outer, RightSlip, LeftSlip;
    var n := max / 8;
    ghost var a, was := sub[..], subkey[..];
    subkey[max] := X(sub[max], sub[max - 1]);
    ghost var k := subkey[..];
    OuterIs(s, n, a, k);
    forall g | 0 <= g < n
      ensures Group(s, n, k, g, RightSlip(s, n, g), LeftSlip(s, n, g))
    {
      assert Emitted(a, n, was, g);
      EmittedStill(a, n, was, k, g);
      EmittedIs(s, n, a, k, g);
    }
  }

  lemma {:induction false} EmittedStill(a: seq<Half>, n: nat, was: seq<Half>, now: seq<Half>, g: nat)
    requires Subkeys(a, n) && 8 * n < |was| && |now| == |was| && g < n
    requires now[..8 * n] == was[..8 * n] && Emitted(a, n, was, g)
    ensures Emitted(a, n, now, g)
  {
    hide X, LoosePush;
    assert forall j :: 0 <= j < 8 * n ==> now[j] == now[..8 * n][j] == was[j];
  }
}
