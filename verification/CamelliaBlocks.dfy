/** Encryption and decryption of a block by camellia_generic.c: the same subkeys forwards and
    backwards. The words io[0], io[1] are the left half and io[2], io[3] the right one. */
module CamelliaBlocks {
  import opened ByteColumns
  import opened CamelliaHalves
  import opened Camellia
  import opened CamelliaExact
  import opened CamelliaRound
  import opened CamelliaSetup
  import opened Xor

  // --- Decryption -------------------------------------------------------------------------------

  function Swap(s: Block): Block { Block(s.r, s.l) }

  function BackPair(f: Rounds, i: nat, s: Block, ka: Half, kb: Half): Block
  {
    var r := X(X(s.r, kb), f(i + 1, s.l));
    Block(X(X(s.l, ka), f(i, r)), r)
  }

  function BackGroup(f: Rounds, k: seq<Half>, g: nat, s: Block): Block
    requires 8 * g + 7 < |k|
  {
    var a := BackPair(f, 6 * g + 4, s, k[8 * g + 6], k[8 * g + 7]);
    var b := BackPair(f, 6 * g + 2, a, k[8 * g + 4], k[8 * g + 5]);
    BackPair(f, 6 * g, b, k[8 * g + 2], k[8 * g + 3])
  }

  /** The state before the rounds of group `g`, which come after those of the groups above. */
  function BackTo(f: Rounds, k: seq<Half>, n: nat, g: nat, s: Block): Block
    requires g < n && 8 * n < |k|
    decreases n - g
  {
    if g == n - 1 then
      Block(X(s.l, k[8 * n]), s.r)
    else
      Layer(BackGroup(f, k, g + 1, BackTo(f, k, n, g + 1, s)), k[8 * g + 9], k[8 * g + 8])
  }

  function Back(f: Rounds, k: seq<Half>, n: nat, s: Block): Block
    requires 0 < n && 8 * n < |k|
  {
    var t := BackGroup(f, k, 0, BackTo(f, k, n, 0, s));
    Block(t.l, X(t.r, k[0]))
  }

  lemma {:induction false} Undo(a: Half, k: Half, f: Half)
    ensures X(X(X(X(a, k), f), k), f) == a
  {
    hide X;
    Assoc(X(a, k), f, k);
    Comm(f, k);
    Assoc(X(a, k), k, f);
    Cancel(a, k);
    Cancel(a, f);
  }

  lemma {:induction false} BackPairUndoes(f: Rounds, i: nat, s: Block, ka: Half, kb: Half)
    ensures BackPair(f, i, Swap(CodePair(f, i, s, ka, kb)), ka, kb) == Swap(s)
  {
    hide X;
    var r := X(X(s.r, ka), f(i, s.l));
    Undo(s.l, kb, f(i + 1, r));
    Undo(s.r, ka, f(i, s.l));
  }

  lemma {:induction false} BackGroupUndoes(f: Rounds, k: seq<Half>, g: nat, s: Block)
    requires 8 * g + 7 < |k|
    ensures BackGroup(f, k, g, Swap(CodeGroup(f, k, g, s))) == Swap(s)
  {
    hide X, CodePair, BackPair, Swap;
    var a := CodePair(f, 6 * g, s, k[8 * g + 2], k[8 * g + 3]);
    var b := CodePair(f, 6 * g + 2, a, k[8 * g + 4], k[8 * g + 5]);
    BackPairUndoes(f, 6 * g, s, k[8 * g + 2], k[8 * g + 3]);
    BackPairUndoes(f, 6 * g + 2, a, k[8 * g + 4], k[8 * g + 5]);
    BackPairUndoes(f, 6 * g + 4, b, k[8 * g + 6], k[8 * g + 7]);
  }

  /** FL undoes FL^-1 on one half while FL^-1 undoes FL on the other. */
  lemma {:induction false} LayerUndoes(s: Block, ka: Half, kb: Half)
    ensures Layer(Swap(Layer(s, ka, kb)), kb, ka) == Swap(s)
  {
    hide Fl, FlInverse;
    FlInverseFl(s.l, ka);
    FlInverseFl(s.r, kb);
  }

  lemma {:induction false} BackMeets(f: Rounds, k: seq<Half>, n: nat, g: nat, s: Block)
    requires g < n && 8 * n < |k|
    ensures BackTo(f, k, n, g, Swap(Code(f, k, n, s))) == Swap(CodeGroup(f, k, g, CodeTo(f, k, g, s)))
    decreases n - g
  {
    if g == n - 1 {
      hide X, CodeGroup, CodeTo;
      Cancel(CodeGroup(f, k, g, CodeTo(f, k, g, s)).r, k[8 * n]);
    } else {
      hide X, Code, CodeGroup, BackGroup, Layer, Swap;
      BackMeets(f, k, n, g + 1, s);
      BackGroupUndoes(f, k, g + 1, CodeTo(f, k, g + 1, s));
      LayerUndoes(CodeGroup(f, k, g, CodeTo(f, k, g, s)), k[8 * g + 8], k[8 * g + 9]);
    }
  }

  /** Decryption undoes encryption, the halves exchanged between, for all subkeys and round functions. */
  lemma {:induction false} BackUndoes(f: Rounds, k: seq<Half>, n: nat, s: Block)
    requires 0 < n && 8 * n < |k|
    ensures Back(f, k, n, Swap(Code(f, k, n, s))) == Swap(s)
  {
    hide X, Code, CodeGroup, BackGroup;
    BackMeets(f, k, n, 0, s);
    BackGroupUndoes(f, k, 0, CodeTo(f, k, 0, s));
    Cancel(s.l, k[0]);
  }

  // --- The code in place -----------------------------------------------------------------------------

  /** CAMELLIA_ROUNDSM */
  method RoundSm(t: Tables, io: array<Half>, from: nat, to: nat, k: Half)
    requires io.Length == 2 && from < 2 && to < 2 && from != to
    modifies io
    ensures io[to] == X(X(old(io[to]), k), Mixed(t, io[from])) && io[from] == old(io[from])
  {
    hide X32, Row0, Row1, Row2, Row3, LooseRor8;
    var x, y := io[from], io[to];
    y := y.(l := X32(y.l, k.l), r := X32(y.r, k.r));
    var ir := t.sp1110(Row3(x.r));
    var il := t.sp1110(Row0(x.l));
    ir := X32(ir, t.sp0222(Row0(x.r)));
    il := X32(il, t.sp0222(Row1(x.l)));
    ir := X32(ir, t.sp3033(Row1(x.r)));
    il := X32(il, t.sp3033(Row2(x.l)));
    ir := X32(ir, t.sp4404(Row2(x.r)));
    il := X32(il, t.sp4404(Row3(x.l)));
    ir := X32(ir, il);
    io[to] := y.(l := X32(y.l, ir), r := X32(y.r, LooseRor8(il, ir)));
  }

  /** CAMELLIA_FLS */
  method Fls(io: array<Half>, ka: Half, kb: Half)
    requires io.Length == 2
    modifies io
    ensures Block(io[0], io[1]) == Layer(Block(old(io[0]), old(io[1])), ka, kb)
  {
    hide X32, Rol1, And, Or;
    var l, r := io[0], io[1];
    r := r.(l := X32(r.l, Or(r.r, kb.r)));
    l := l.(r := X32(l.r, Rol1(And(l.l, ka.l))));
    l := l.(l := X32(l.l, Or(l.r, ka.r)));
    r := r.(r := X32(r.r, Rol1(And(r.l, kb.l))));
    io[0], io[1] := l, r;
  }

  /** ROUNDS(8 * g) of camellia_do_encrypt */
  method SixRounds(t: Tables, subkey: array<Half>, io: array<Half>, g: nat)
    requires 8 * g + 7 < subkey.Length && io.Length == 2 && subkey != io
    modifies io
    ensures Block(io[0], io[1]) == CodeGroup(Every(t), subkey[..], g, Block(old(io[0]), old(io[1])))
  {
    hide X, Mixed;
    var i := 8 * g;
    RoundSm(t, io, 0, 1, subkey[i + 2]);
    RoundSm(t, io, 1, 0, subkey[i + 3]);
    RoundSm(t, io, 0, 1, subkey[i + 4]);
    RoundSm(t, io, 1, 0, subkey[i + 5]);
    RoundSm(t, io, 0, 1, subkey[i + 6]);
    RoundSm(t, io, 1, 0, subkey[i + 7]);
  }

  /** ROUNDS(8 * g) of camellia_do_decrypt */
  method SixRoundsBack(t: Tables, subkey: array<Half>, io: array<Half>, g: nat)
    requires 8 * g + 7 < subkey.Length && io.Length == 2 && subkey != io
    modifies io
    ensures Block(io[0], io[1]) == BackGroup(Every(t), subkey[..], g, Block(old(io[0]), old(io[1])))
  {
    hide X, Mixed;
    var i := 8 * g;
    RoundSm(t, io, 0, 1, subkey[i + 7]);
    RoundSm(t, io, 1, 0, subkey[i + 6]);
    RoundSm(t, io, 0, 1, subkey[i + 5]);
    RoundSm(t, io, 1, 0, subkey[i + 4]);
    RoundSm(t, io, 0, 1, subkey[i + 3]);
    RoundSm(t, io, 1, 0, subkey[i + 2]);
  }

  method DoEncrypt(t: Tables, subkey: array<Half>, io: array<Half>, max: nat)
    requires max in {24, 32} && max < subkey.Length && io.Length == 2 && subkey != io
    modifies io
    ensures Block(io[0], io[1]) == Code(Every(t), subkey[..], max / 8, Block(old(io[0]), old(io[1])))
  {
    hide X, CodeGroup, Layer, Every;
    ghost var f, k, s := Every(t), subkey[..], Block(io[0], io[1]);
    io[0] := X(io[0], subkey[0]);
    assert Block(io[0], io[1]) == CodeTo(f, k, 0, s);
    SixRounds(t, subkey, io, 0);
    Fls(io, subkey[8], subkey[9]);
    assert Block(io[0], io[1]) == CodeTo(f, k, 1, s);
    SixRounds(t, subkey, io, 1);
    Fls(io, subkey[16], subkey[17]);
    assert Block(io[0], io[1]) == CodeTo(f, k, 2, s);
    SixRounds(t, subkey, io, 2);
    if max == 32 {
      Fls(io, subkey[24], subkey[25]);
      assert Block(io[0], io[1]) == CodeTo(f, k, 3, s);
      SixRounds(t, subkey, io, 3);
    }
    io[1] := X(io[1], subkey[max]);
  }

  method DoDecrypt(t: Tables, subkey: array<Half>, io: array<Half>, max: nat)
    requires max in {24, 32} && max < subkey.Length && io.Length == 2 && subkey != io
    modifies io
    ensures Block(io[0], io[1]) == Back(Every(t), subkey[..], max / 8, Block(old(io[0]), old(io[1])))
  {
    hide X, BackGroup, Layer, Every;
    ghost var f, k, n, s := Every(t), subkey[..], max / 8, Block(io[0], io[1]);
    io[0] := X(io[0], subkey[max]);
    assert Block(io[0], io[1]) == BackTo(f, k, n, n - 1, s);
    if max == 32 {
      SixRoundsBack(t, subkey, io, 3);
      Fls(io, subkey[25], subkey[24]);
    }
    assert Block(io[0], io[1]) == BackTo(f, k, n, 2, s);
    SixRoundsBack(t, subkey, io, 2);
    Fls(io, subkey[17], subkey[16]);
    assert Block(io[0], io[1]) == BackTo(f, k, n, 1, s);
    SixRoundsBack(t, subkey, io, 1);
    Fls(io, subkey[9], subkey[8]);
    assert Block(io[0], io[1]) == BackTo(f, k, n, 0, s);
    SixRoundsBack(t, subkey, io, 0);
    io[1] := X(io[1], subkey[0]);
  }

  /** Key setup, encryption and decryption of a block: the block always comes back. Where no rotated bit collides in the
      setup the ciphertext is that of the standard's cipher on the subkeys given, with the code's round function; where
      the block's run is clean as well, with the proper round function. */
  method EncryptThenDecrypt(t: Tables, given: seq<Half>, max: nat, block: Block) returns (ct: Block, pt: Block)
    requires max in {24, 32} && |given| == max + 2
    ensures pt == block
    ensures NoCollision(given, max / 8) ==> ct == Swap(Text(Every(t), given, max / 8, block))
    ensures NoCollision(given, max / 8) && CleanRun(t, given, max / 8, block) ==>
      ct == Swap(Text(Standard(t), given, max / 8, block))
  {
    hide Code, Back, Text, Tail, NoCollision, Every, Standard, CleanRun;
    var n := max / 8;
    var sub := new Half[max + 2](i requires 0 <= i < max + 2 => given[i]);
    assert sub[..] == given;
    var subkey := new Half[34];
    SetupTail(subkey, sub, max);
    ghost var k := subkey[..];
    var io := new Half[2];
    io[0], io[1] := block.l, block.r;
    DoEncrypt(t, subkey, io, max);
    ct := Block(io[1], io[0]);
    io[0], io[1] := ct.l, ct.r;
    DoDecrypt(t, subkey, io, max);
    pt := Block(io[1], io[0]);
    BackUndoes(Every(t), k, n, block);
    TailExact(given, n, k);
    if CleanRun(t, given, n, block) {
      CleanText(t, given, n, block);
    }
  }
}
