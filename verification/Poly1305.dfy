/** Poly1305 as section 2.5 of RFC 8439 defines it, on whole messages. */
module Poly1305Spec {
  import opened Words
  import opened LittleEndian
  import opened Poly1305Arithmetic

  const CLAMP: nat := 0x0fff_fffc_0fff_fffc_0fff_fffc_0fff_ffff

  /** A block gets a one bit above its last byte, is added to the accumulator
      and multiplied by `r`. */
  function Absorb(acc: nat, r: nat, block: seq<Byte>): nat
  {
    ((acc + (LE(block) + Pow2(8 * |block|))) * r) % P
  }

  /** The blocks of 16 bytes, the last possibly shorter. */
  function Accumulate(acc: nat, r: nat, msg: seq<Byte>): nat
    decreases |msg|
  {
    if msg == [] then acc
    else
      var n := if |msg| < 16 then |msg| else 16;
      Accumulate(Absorb(acc, r, msg[..n]), r, msg[n..])
  }

  function Mac(key: seq<Byte>, msg: seq<Byte>): seq<Byte>
    requires |key| == 32
  {
    var r := And(LE(key[..16]), CLAMP);
    var s := LE(key[16..]);
    Bytes((Accumulate(0, r, msg) + s) % TWO_128, 16)
  }

  lemma {:induction false} AccumulateOne(acc: nat, r: nat, block: seq<Byte>)
    requires 0 < |block| <= 16
    ensures Accumulate(acc, r, block) == Absorb(acc, r, block)
  {
    hide Absorb;
    assert block[..|block|] == block && block[|block|..] == [];
  }

  lemma {:induction false} AccumulateConcat(acc: nat, r: nat, full: seq<Byte>, rest: seq<Byte>)
    requires |full| % 16 == 0
    ensures Accumulate(acc, r, full + rest) == Accumulate(Accumulate(acc, r, full), r, rest)
    decreases |full|
  {
    hide Absorb;
    if full == [] {
      assert full + rest == rest;
    } else {
      var msg := full + rest;
      assert msg[..16] == full[..16] && msg[16..] == full[16..] + rest;
      AccumulateConcat(Absorb(acc, r, msg[..16]), r, full[16..], rest);
    }
  }
}

/** The streaming implementation: poly1305_init, poly1305_process and
    poly1305_done with the 16-byte leftover buffer between calls. */
module Poly1305 {
  import opened Words
  import opened LittleEndian
  import opened Poly1305Arithmetic
  import opened Poly1305Final
  import opened Poly1305Spec

  const HIBIT: nat := 0x100_0000   // 1 << 24, which is 1 << 128 of the block

  /** The limbs after all whole blocks of `msg`; a shorter tail is ignored. */
  function Blocks(h: Limbs, r: Limbs, msg: seq<Byte>, hibit: nat): Limbs
    decreases |msg|
  {
    if |msg| < 16 then h else Blocks(BlockStep(h, r, msg[..16], hibit), r, msg[16..], hibit)
  }

  lemma {:induction false} BlocksConcat(h: Limbs, r: Limbs, a: seq<Byte>, b: seq<Byte>, hibit: nat)
    requires |a| % 16 == 0
    ensures Blocks(h, r, a + b, hibit) == Blocks(Blocks(h, r, a, hibit), r, b, hibit)
    decreases |a|
  {
    hide BlockStep;
    if a == [] {
      assert a + b == b;
    } else {
      assert (a + b)[..16] == a[..16] && (a + b)[16..] == a[16..] + b;
      BlocksConcat(BlockStep(h, r, a[..16], hibit), r, a[16..], b, hibit);
    }
  }

  /** The loop invariant of _poly1305_block over any number of blocks. */
  lemma {:induction false} BlocksCorrect(h: Limbs, r: Limbs, msg: seq<Byte>)
    requires Carried(h) && Clamped(r) && |msg| % 16 == 0
    ensures Carried(Blocks(h, r, msg, HIBIT))
    ensures Value(Blocks(h, r, msg, HIBIT)) % P == Accumulate(Value(h) % P, Value(r), msg)
    decreases |msg|
  {
    hide BlockStep, Carried, Clamped, Value, Absorb;
    if msg != [] {
      FullBlock(h, r, msg[..16]);
      BlocksCorrect(BlockStep(h, r, msg[..16], HIBIT), r, msg[16..]);
    }
  }

  lemma {:induction false} FullBlock(h: Limbs, r: Limbs, m: seq<Byte>)
    requires Carried(h) && Clamped(r) && |m| == 16
    ensures Carried(BlockStep(h, r, m, HIBIT))
    ensures Value(BlockStep(h, r, m, HIBIT)) % P == Absorb(Value(h) % P, Value(r), m)
  {
    hide BlockStep, Carried, Clamped, Value, LE;
    BlockStepCorrect(h, r, m, HIBIT);
    TopBit();
  }

  lemma {:induction false} TopBit()
    ensures HIBIT * B4 == Pow2(8 * 16) == TWO_128
  {
    Pow2Literals();
    Pow2Square(64, W64, 128, TWO_128);
  }

  // --- Key setup --------------------------------------------------------------

  /** `r` as poly1305_init masks it. */
  function ClampLimbs(key: seq<Byte>): Limbs
    requires |key| == 32
  {
    Limbs(And(Load32(key, 0), 0x3ff_ffff), And(Load32(key, 3) / 4, 0x3ff_ff03),
          And(Load32(key, 6) / 16, 0x3ff_c0ff), And(Load32(key, 9) / 64, 0x3f0_3fff),
          And(Load32(key, 12) / 256, 0x00f_ffff))
  }

  lemma {:induction false} AndBelow(x: nat, m: nat)
    requires m < B
    ensures And(x, m) == And(x % B, m) < B
  {
    Pow2Literals();
    BitwiseSplit(AndOp, 26, x % B, m, x / B, 0);
    BitwiseZero(AndOp, x / B);
    hide And, Bitwise;
    assert x % B + B * (x / B) == x && m + B * 0 == m;
  }

  lemma {:induction false} AndLimb(x: nat, m: nat, x': nat, m': nat)
    requires x < B && m < B
    ensures And(x + B * x', m + B * m') == And(x, m) + B * And(x', m')
  {
    Pow2Literals();
    BitwiseSplit(AndOp, 26, x, m, x', m');
  }

  /** Masking limb by limb is masking the whole number. */
  lemma {:induction false} AndLimbs(b: Limbs, m: Limbs)
    requires Reduced(b) && Reduced(m)
    ensures And(Value(b), Value(m))
         == Value(Limbs(And(b.l0, m.l0), And(b.l1, m.l1), And(b.l2, m.l2), And(b.l3, m.l3), And(b.l4, m.l4)))
  {
    hide And;
    var b3, m3 := b.l3 + B * b.l4, m.l3 + B * m.l4;
    var b2, m2 := b.l2 + B * b3, m.l2 + B * m3;
    var b1, m1 := b.l1 + B * b2, m.l1 + B * m2;
    AndLimb(b.l3, m.l3, b.l4, m.l4);
    AndLimb(b.l2, m.l2, b3, m3);
    AndLimb(b.l1, m.l1, b2, m2);
    AndLimb(b.l0, m.l0, b1, m1);
    assert Value(b) == b.l0 + B * b1 && Value(m) == m.l0 + B * m1;
  }

  /** The five masks together are the clamp of section 2.5 of RFC 8439. */
  lemma {:induction false} ClampCorrect(key: seq<Byte>)
    requires |key| == 32
    ensures Clamped(ClampLimbs(key))
    ensures Value(ClampLimbs(key)) == And(LE(key[..16]), CLAMP)
  {
    var m := Limbs(0x3ff_ffff, 0x3ff_ff03, 0x3ff_c0ff, 0x3f0_3fff, 0x00f_ffff);
    assert Value(m) == CLAMP;
    var b := BlockLimbs(key[..16], 0);
    BlockLimbsValue(key[..16], 0);
    Loads(key);
    AndLimbs(b, m);
    hide And, Value, LE;
    AndBelow(Load32(key, 0), m.l0);
    AndBelow(Load32(key, 3) / 4, m.l1);
    AndBelow(Load32(key, 6) / 16, m.l2);
    AndBelow(Load32(key, 9) / 64, m.l3);
    TopClamp(Load32(key, 12) / 256);
  }

  lemma {:induction false} TopClamp(x: nat)
    ensures And(x, 0x00f_ffff) < 0x10_0000
  {
    Pow2Literals();
    Pow2Add(16, 4);
    AndMask(20, x);
  }

  lemma {:induction false} Loads(key: seq<Byte>)
    requires |key| == 32
    ensures BlockLimbs(key[..16], 0)
         == Limbs(Load32(key, 0) % B, Load32(key, 3) / 4 % B, Load32(key, 6) / 16 % B, Load32(key, 9) / 64 % B,
                  Load32(key, 12) / 256)
  {
    hide Load32, Or;
    var m := key[..16];
    SameLoad(key, m, 0); SameLoad(key, m, 3); SameLoad(key, m, 6); SameLoad(key, m, 9); SameLoad(key, m, 12);
    BitwiseZero(OrOp, Load32(key, 12) / 256);
    assert Or(Load32(key, 12) / 256, 0) == Load32(key, 12) / 256 by { OrZero(Load32(key, 12) / 256); }
  }

  lemma {:induction false} OrZero(x: nat)
    ensures Or(x, 0) == x
  {
    BitwiseZero(OrOp, x);
  }

  /** A load depends on the bytes it reads. */
  lemma {:induction false} SameLoad(key: seq<Byte>, m: seq<Byte>, i: nat)
    requires |key| == 32 && m == key[..16] && i + 4 <= 16
    ensures Load32(key, i) == Load32(m, i)
  {
    hide Load32;
  }

  function PadWords(key: seq<Byte>): (pad: Words4)
    requires |key| == 32
    ensures Fits(pad)
  {
    Words4(Load32(key, 16), Load32(key, 20), Load32(key, 24), Load32(key, 28))
  }

  lemma {:induction false} PadCorrect(key: seq<Byte>)
    requires |key| == 32
    ensures Value128(PadWords(key)) == LE(key[16..])
  {
    hide LE, Load32;
    var s := key[16..];
    LE16(s);
    LE4(s[..4]); LE4(s[4..8]); LE4(s[8..12]); LE4(s[12..]);
  }

  // --- The state as a function of the bytes absorbed -----------------------------

  /** Everything the state holds about the message, whatever the calls were. */
  predicate Represents(msg: seq<Byte>, r: Limbs, h: Limbs, leftover: nat, buffer: seq<Byte>)
  {
    && |buffer| == 16
    && leftover == |msg| % 16
    && buffer[..leftover] == msg[|msg| - leftover..]
    && h == Blocks(ZERO, r, msg[..|msg| - leftover], HIBIT)
  }

  /** The input does not complete the buffered block. */
  lemma {:induction false} AppendShort(msg: seq<Byte>, r: Limbs, h: Limbs, leftover: nat, buffer: seq<Byte>,
                                       inp: seq<Byte>, buffer': seq<Byte>)
    requires Represents(msg, r, h, leftover, buffer)
    requires leftover + |inp| < 16 && |buffer'| == 16
    requires buffer'[..leftover + |inp|] == buffer[..leftover] + inp
    ensures Represents(msg + inp, r, h, leftover + |inp|, buffer')
  {
    hide Blocks;
    QuotientIs(|msg| + |inp|, 16, |msg| / 16, leftover + |inp|);
    assert (msg + inp)[..|msg| - leftover] == msg[..|msg| - leftover];
    assert (msg + inp)[|msg| - leftover..] == msg[|msg| - leftover..] + inp;
  }

  /** The input completes the buffered block. */
  lemma {:induction false} AppendFill(msg: seq<Byte>, r: Limbs, h: Limbs, leftover: nat, buffer: seq<Byte>,
                                      inp: seq<Byte>, buffer': seq<Byte>)
    requires Represents(msg, r, h, leftover, buffer)
    requires leftover + |inp| == 16 && buffer' == buffer[..leftover] + inp
    ensures Represents(msg + inp, r, Blocks(h, r, buffer', HIBIT), 0, buffer')
  {
    hide Blocks;
    var full := msg[..|msg| - leftover];
    assert msg + inp == full + buffer';
    BlocksConcat(ZERO, r, full, buffer', HIBIT);
    assert (msg + inp)[..|msg + inp|] == msg + inp;
  }

  /** Whole blocks on an empty buffer. */
  lemma {:induction false} AppendBlocks(msg: seq<Byte>, r: Limbs, h: Limbs, buffer: seq<Byte>, inp: seq<Byte>)
    requires Represents(msg, r, h, 0, buffer) && |inp| % 16 == 0
    ensures Represents(msg + inp, r, Blocks(h, r, inp, HIBIT), 0, buffer)
  {
    hide Blocks;
    assert msg[..|msg|] == msg && (msg + inp)[..|msg + inp|] == msg + inp;
    BlocksConcat(ZERO, r, msg, inp, HIBIT);
  }

  /** What poly1305_done adds to a last block shorter than 16 bytes. */
  function Padded(part: seq<Byte>): (b: seq<Byte>)
    requires |part| < 16
    ensures |b| == 16
  {
    part + [1] + seq(15 - |part|, _ => 0)
  }

  lemma {:induction false} PaddedValue(part: seq<Byte>)
    requires |part| < 16
    ensures LE(Padded(part)) == LE(part) + Pow2(8 * |part|)
  {
    var zeros: seq<Byte> := seq(15 - |part|, _ => 0);
    LEConcat(part, [1] + zeros);
    assert part + [1] + zeros == part + ([1] + zeros);
    assert ([1] + zeros)[1..] == zeros;
    LEZeros(15 - |part|);
    assert LE([1] + zeros) == 1;
  }

  /** The limbs poly1305_done freezes. */
  function LastLimbs(r: Limbs, h: Limbs, part: seq<Byte>): Limbs
    requires |part| < 16
  {
    if part == [] then h else BlockStep(h, r, Padded(part), 0)
  }

  lemma {:induction false} LastBlock(r: Limbs, h: Limbs, part: seq<Byte>)
    requires Carried(h) && Clamped(r) && |part| < 16
    ensures Carried(LastLimbs(r, h, part))
    ensures Value(LastLimbs(r, h, part)) % P == Accumulate(Value(h) % P, Value(r), part)
  {
    hide BlockStep, Carried, Clamped, Value, LE, Padded, Accumulate, Pow2;
    if part != [] {
      BlockStepCorrect(h, r, Padded(part), 0);
      PaddedValue(part);
      AccumulateOne(Value(h) % P, Value(r), part);
    } else {
      AccumulateNone(Value(h) % P, Value(r));
    }
  }

  lemma {:induction false} AccumulateNone(acc: nat, r: nat)
    ensures Accumulate(acc, r, []) == acc
  {
  }

  lemma {:induction false} ZeroLimbs()
    ensures Carried(ZERO) && Value(ZERO) % P == 0
  {
  }

  /** The tag of a represented message is the whole-message tag. */
  lemma {:induction false} TagCorrect(msg: seq<Byte>, r: Limbs, h: Limbs, leftover: nat, buffer: seq<Byte>, pad: Words4)
    requires Represents(msg, r, h, leftover, buffer) && Clamped(r) && Fits(pad)
    ensures Carried(h) && Carried(LastLimbs(r, h, buffer[..leftover]))
    ensures TagBytes(LastLimbs(r, h, buffer[..leftover]), pad)
         == Bytes((Accumulate(0, Value(r), msg) + Value128(pad)) % TWO_128, 16)
  {
    hide Blocks, BlockStep, LastLimbs, TagBytes, Bytes, Accumulate, Value, Carried, Clamped, Fits;
    var full, part := msg[..|msg| - leftover], msg[|msg| - leftover..];
    ZeroLimbs();
    BlocksCorrect(ZERO, r, full);
    LastBlock(r, h, part);
    assert msg == full + part;
    AccumulateConcat(0, Value(r), full, part);
    TagBytesCorrect(LastLimbs(r, h, part), pad);
  }

  // --- The state object ------------------------------------------------------------

  class State {
    var r: Limbs
    var h: Limbs
    var pad: Words4
    var leftover: nat
    const buffer: array<Byte>
    var final: bool
    ghost var absorbed: seq<Byte>   // the bytes given to Process so far

    ghost predicate Valid()
      reads this, buffer
    {
      && buffer.Length == 16
      && !final && Clamped(r) && Fits(pad)
      && Represents(absorbed, r, h, leftover, buffer[..])
    }

    /** A state not yet keyed; its fields are arbitrary. */
    constructor ()
      ensures fresh(buffer) && buffer.Length == 16
    {
      buffer := new Byte[16];
    }

    /** poly1305_init */
    method Init(key: seq<Byte>)
      requires |key| == 32 && buffer.Length == 16
      modifies this
      ensures Valid() && absorbed == []
      ensures r == ClampLimbs(key) && pad == PadWords(key)
      ensures Value(r) == And(LE(key[..16]), CLAMP) && Value128(pad) == LE(key[16..])
    {
      hide ClampLimbs, PadWords, Value, Value128, And, LE, Clamped, Fits;
      ClampCorrect(key);
      PadCorrect(key);
      r := ClampLimbs(key);
      h := ZERO;
      pad := PadWords(key);
      leftover := 0;
      final := false;
      absorbed := [];
    }

    /** _poly1305_block: all whole blocks of `inp`. */
    method Block(inp: seq<Byte>)
      modifies this`h
      ensures h == Blocks(old(h), r, inp, if final then 0 else HIBIT)
    {
      hide BlockStep;
      var hibit := if final then 0 else HIBIT;
      var rest := inp;
      while |rest| >= 16
        invariant Blocks(h, r, rest, hibit) == Blocks(old(h), r, inp, hibit)
      {
        h := BlockStep(h, r, rest[..16], hibit);
        rest := rest[16..];
      }
    }

    /** poly1305_process */
    method Process(inp: seq<Byte>)
      requires Valid()
      modifies this`h, this`leftover, this`absorbed, buffer
      ensures Valid() && absorbed == old(absorbed) + inp
    {
      hide Represents, Clamped, Fits;
      var rest := inp;
      if |rest| != 0 && leftover != 0 {
        var want := TopUp(rest);
        rest := rest[want..];
        assert inp == inp[..want] + rest;
        if leftover != 0 {
          return;
        }
      }
      if |rest| != 0 {
        TakeRest(rest);
      }
    }

    /** "handle leftover": completes the buffered block as far as possible. */
    method TopUp(inp: seq<Byte>) returns (want: nat)
      requires Valid() && leftover != 0
      modifies this`h, this`leftover, this`absorbed, buffer
      ensures want <= |inp|
      ensures Valid() && absorbed == old(absorbed) + inp[..want]
      ensures leftover == 0 || want == |inp|
    {
      hide Blocks, Clamped, Fits;
      want := 16 - leftover;
      if want > |inp| {
        want := |inp|;
      }
      CopyIn(inp[..want]);
      if leftover + want < 16 {
        AppendShort(absorbed, r, h, leftover, old(buffer[..]), inp[..want], buffer[..]);
        leftover := leftover + want;
      } else {
        assert buffer[..16] == buffer[..];
        AppendFill(absorbed, r, h, leftover, old(buffer[..]), inp[..want], buffer[..]);
        Block(buffer[..]);
        leftover := 0;
      }
      absorbed := absorbed + inp[..want];
    }

    /** "process full blocks" and "store leftover". */
    method TakeRest(inp: seq<Byte>)
      requires Valid() && leftover == 0
      modifies this`h, this`leftover, this`absorbed, buffer
      ensures Valid() && absorbed == old(absorbed) + inp
    {
      hide Blocks, Clamped, Fits;
      var rest := inp;
      if |rest| >= 16 {
        var want := |rest| - |rest| % 16;   // inlen & ~15
        AppendBlocks(absorbed, r, h, buffer[..], rest[..want]);
        Block(rest[..want]);
        absorbed := absorbed + rest[..want];
        rest := rest[want..];
      }
      assert absorbed + rest == old(absorbed) + inp;
      if |rest| != 0 {
        ghost var before := buffer[..];
        CopyIn(rest);
        AppendShort(absorbed, r, h, 0, before, rest, buffer[..]);
        leftover := leftover + |rest|;
        absorbed := absorbed + rest;
      }
    }

    /** `for (i = 0; i < want; i++) st->buffer[st->leftover + i] = in[i]` */
    method CopyIn(inp: seq<Byte>)
      requires buffer.Length == 16 && leftover + |inp| <= 16
      modifies buffer
      ensures buffer[..leftover + |inp|] == old(buffer[..leftover]) + inp
    {
      for i := 0 to |inp|
        invariant buffer[..leftover + i] == old(buffer[..leftover]) + inp[..i]
      {
        buffer[leftover + i] := inp[i];
        assert inp[..i + 1] == inp[..i] + [inp[i]];
      }
    }

    /** poly1305_done: the tag, after which the secret fields are zeroed. */
    method Done() returns (mac: seq<Byte>)
      requires Valid()
      modifies this`r, this`h, this`pad, this`final, buffer
      ensures mac == Bytes((Accumulate(0, old(Value(r)), absorbed) + old(Value128(pad))) % TWO_128, 16)
      ensures h == ZERO && r == ZERO && pad == Words4(0, 0, 0, 0)
    {
      hide Blocks, BlockStep, Clamped, Fits, Value, Value128, Accumulate, Bytes, TagBytes;
      TagCorrect(absorbed, r, h, leftover, buffer[..], pad);
      if leftover != 0 {
        ghost var part := buffer[..leftover];
        buffer[leftover] := 1;
        for i := leftover + 1 to 16
          invariant buffer[..leftover] == part && buffer[leftover] == 1
          invariant forall j :: leftover < j < i ==> buffer[j] == 0
          modifies buffer
        {
          buffer[i] := 0;
        }
        assert buffer[..] == Padded(part);
        final := true;
        OneBlock(h, r, buffer[..]);
        Block(buffer[..]);
      }
      mac := TagBytes(h, pad);
      h, r, pad := ZERO, ZERO, Words4(0, 0, 0, 0);
    }
  }

  lemma {:induction false} OneBlock(h: Limbs, r: Limbs, m: seq<Byte>)
    requires |m| == 16
    ensures Blocks(h, r, m, 0) == BlockStep(h, r, m, 0)
  {
    hide BlockStep;
    assert m[..16] == m && m[16..] == [];
  }

  // --- Any way of splitting the message -----------------------------------------------

  /** For every key and every sequence of Process calls, the tag is the
      whole-message tag of the concatenated input. */
  method MacOfChunks(key: seq<Byte>, chunks: seq<seq<Byte>>) returns (tag: seq<Byte>)
    requires |key| == 32
    ensures tag == Mac(key, Flatten(chunks))
  {
    hide Accumulate, Bytes, Value, Value128, And, LE, Represents, Clamped, Fits, ClampLimbs, PadWords;
    var st := new State();
    st.Init(key);
    for i := 0 to |chunks|
      invariant st.Valid() && st.absorbed == Flatten(chunks[..i])
      invariant Value(st.r) == And(LE(key[..16]), CLAMP) && Value128(st.pad) == LE(key[16..])
    {
      st.Process(chunks[i]);
      assert chunks[..i + 1][..i] == chunks[..i];
    }
    assert chunks[..|chunks|] == chunks;
    tag := st.Done();
  }
}
