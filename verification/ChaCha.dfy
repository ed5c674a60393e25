/** The ChaCha stream of chacha20poly1305_memory.c: a partly used 64-byte block
    is kept between calls, and the counter takes 64 bits when the IV has 8 bytes
    and 32 bits otherwise. */
module ChaCha {
  import opened Words
  import opened LittleEndian
  import opened ChaChaBlock

  datatype Status = Ok | Overflow | Error

  // --- The keystream, indexed by position -----------------------------------------

  function Limit(ivlen: nat): nat
  {
    if ivlen == 8 then W64 else W32
  }

  function Counter(input: Matrix, ivlen: nat): (c: nat)
    ensures c < Limit(ivlen)
  {
    if ivlen == 8 then input[12] as nat + W32 * input[13] as nat else input[12]
  }

  function WithCounter(input: Matrix, ivlen: nat, c: nat): (m: Matrix)
    requires c < Limit(ivlen)
    ensures Counter(m, ivlen) == c
    ensures c == Counter(input, ivlen) ==> m == input
  {
    if ivlen == 8 then input[12 := c % W32][13 := c / W32] else input[12 := c]
  }

  lemma {:induction false} WithCounterTwice(input: Matrix, ivlen: nat, c: nat, d: nat)
    requires c < Limit(ivlen) && d < Limit(ivlen)
    ensures WithCounter(WithCounter(input, ivlen, c), ivlen, d) == WithCounter(input, ivlen, d)
  {
  }

  /** What fixes a keystream: the matrix its first block is made from. */
  datatype Stream = Stream(base: Matrix, ivlen: nat, rounds: int)

  /** The matrix whose counter is `n` past the first one. */
  function Advanced(s: Stream, n: nat): Matrix
  {
    WithCounter(s.base, s.ivlen, (Counter(s.base, s.ivlen) + n) % Limit(s.ivlen))
  }

  function StreamBlock(s: Stream, n: nat): (b: seq<Byte>)
    ensures |b| == 64
  {
    BlockBytes(Advanced(s, n), s.rounds)
  }

  function StreamByte(s: Stream, p: nat): Byte
  {
    StreamBlock(s, p / 64)[p % 64]
  }

  /** `data` combined with the keystream from position `pos` on. */
  function XorStream(s: Stream, pos: nat, data: seq<Byte>): (out: seq<Byte>)
    ensures |out| == |data|
  {
    seq(|data|, i requires 0 <= i < |data| => XorByte(data[i], StreamByte(s, pos + i)))
  }

  lemma {:induction false} XorStreamConcat(s: Stream, pos: nat, a: seq<Byte>, b: seq<Byte>)
    ensures XorStream(s, pos, a + b) == XorStream(s, pos, a) + XorStream(s, pos + |a|, b)
  {
    hide XorByte, StreamByte;
    var whole, left, right := XorStream(s, pos, a + b), XorStream(s, pos, a), XorStream(s, pos + |a|, b);
    forall i | 0 <= i < |a + b|
      ensures whole[i] == (left + right)[i]
    {
      if i >= |a| {
        assert pos + |a| + (i - |a|) == pos + i;
      }
    }
  }

  /** Decryption is encryption again. */
  lemma {:induction false} XorStreamTwice(s: Stream, pos: nat, data: seq<Byte>)
    ensures XorStream(s, pos, XorStream(s, pos, data)) == data
  {
    hide StreamByte;
  }

  /** Whole blocks and parts of blocks are slices of the position-indexed stream. */
  lemma {:induction false} BlockSlice(s: Stream, n: nat, i: nat)
    requires i < 64
    ensures StreamByte(s, 64 * n + i) == StreamBlock(s, n)[i]
  {
    hide StreamBlock;
    QuotientIs(64 * n + i, 64, n, i);
  }

  // --- Key, IV and counter ------------------------------------------------------------

  /** "expand 32-byte k" */
  const SIGMA: seq<Byte> := [0x65, 0x78, 0x70, 0x61, 0x6e, 0x64, 0x20, 0x33, 0x32, 0x2d, 0x62, 0x79, 0x74, 0x65, 0x20, 0x6b]
  /** "expand 16-byte k" */
  const TAU: seq<Byte> := [0x65, 0x78, 0x70, 0x61, 0x6e, 0x64, 0x20, 0x31, 0x36, 0x2d, 0x62, 0x79, 0x74, 0x65, 0x20, 0x6b]

  function LoadRow(b: seq<Byte>, i: nat): (x: seq<Word32>)
    requires i + 16 <= |b|
    ensures |x| == 4
  {
    [Load32(b, i), Load32(b, i + 4), Load32(b, i + 8), Load32(b, i + 12)]
  }

  /** Rows 0 to 2 of the matrix, as chacha_setup loads them. */
  function KeyRows(key: seq<Byte>): (x: seq<Word32>)
    requires |key| >= 16
    ensures |x| == 12
  {
    if |key| == 32 then LoadRow(SIGMA, 0) + LoadRow(key, 0) + LoadRow(key, 16)
    else LoadRow(TAU, 0) + LoadRow(key, 0) + LoadRow(key, 0)
  }

  /** Row 3 with a 32-bit counter and a 12-byte IV (chacha_ivctr32). */
  function CounterRow32(iv: seq<Byte>, counter: Word32): (x: seq<Word32>)
    requires |iv| >= 12
    ensures |x| == 4
  {
    [counter, Load32(iv, 0), Load32(iv, 4), Load32(iv, 8)]
  }

  /** Row 3 with a 64-bit counter and an 8-byte IV (chacha_ivctr64). */
  function CounterRow64(iv: seq<Byte>, counter: Word64): (x: seq<Word32>)
    requires |iv| >= 8
    ensures |x| == 4
  {
    [counter % W32, counter / W32, Load32(iv, 0), Load32(iv, 4)]
  }

  lemma {:induction false} RowWord(b: seq<Byte>, i: nat, j: nat)
    requires i + 16 <= |b| && j < 4
    ensures LoadRow(b, i)[j] == LE(b[i + 4 * j..i + 4 * j + 4])
  {
    hide LE, Load32;
    LE4(b[i + 4 * j..i + 4 * j + 4]);
  }

  lemma {:induction false} Constants()
    ensures LoadRow(SIGMA, 0) == [0x61707865, 0x3320646e, 0x79622d32, 0x6b206574]
    ensures LoadRow(TAU, 0) == [0x61707865, 0x3120646e, 0x79622d36, 0x6b206574]
  {
    hide Load32;
  }

  /** The first three rows of section 2.3 of RFC 8439: the constants and the key, little-endian. */
  lemma {:induction false} KeyWords(key: seq<Byte>, i: nat)
    requires |key| == 32 && i < 8
    ensures KeyRows(key)[..4] == [0x61707865, 0x3320646e, 0x79622d32, 0x6b206574]
    ensures KeyRows(key)[4 + i] == LE(key[4 * i..4 * i + 4])
  {
    hide LE, LoadRow;
    Constants();
    if i < 4 {
      RowWord(key, 0, i);
    } else {
      RowWord(key, 16, i - 4);
    }
  }

  /** A 16-byte key comes twice, with other constants. */
  lemma {:induction false} ShortKeyWords(key: seq<Byte>, i: nat)
    requires |key| == 16 && i < 4
    ensures KeyRows(key)[..4] == [0x61707865, 0x3120646e, 0x79622d36, 0x6b206574]
    ensures KeyRows(key)[4 + i] == KeyRows(key)[8 + i] == LE(key[4 * i..4 * i + 4])
  {
    hide LE, LoadRow;
    Constants();
    RowWord(key, 0, i);
  }

  /** The last row: the counter and the nonce. */
  lemma {:induction false} CounterWords(iv: seq<Byte>, i: nat, counter: Word32)
    requires |iv| >= 12 && i < 3
    ensures CounterRow32(iv, counter)[0] == counter && CounterRow32(iv, counter)[1 + i] == LE(iv[4 * i..4 * i + 4])
  {
    hide LE, Load32;
    LE4(iv[4 * i..4 * i + 4]);
  }

  lemma {:induction false} LongCounterWords(iv: seq<Byte>, i: nat, low: Word32, high: Word32)
    requires |iv| >= 8 && i < 2
    ensures CounterRow64(iv, low + W32 * high)[..2] == [low, high]
    ensures CounterRow64(iv, low + W32 * high)[2 + i] == LE(iv[4 * i..4 * i + 4])
  {
    hide LE, Load32;
    LE4(iv[4 * i..4 * i + 4]);
    QuotientIs(low + W32 * high, W32, high, low);
  }

  // --- The state between calls -----------------------------------------------------------

  /** The object has handed out `pos` bytes of stream `s`: its matrix is ready
      for the next block, and the last `ksleft` bytes of `kstream` are the
      unused tail of the previous one. */
  predicate Positioned(s: Stream, pos: nat, input: Matrix, ksleft: nat, kstream: seq<Byte>)
  {
    && |kstream| == 64 && ksleft < 64
    && (pos + ksleft) % 64 == 0
    && Counter(s.base, s.ivlen) + (pos + ksleft) / 64 < Limit(s.ivlen)
    && input == Advanced(s, (pos + ksleft) / 64)
    && forall j :: 64 - ksleft <= j < 64 ==> kstream[j] == StreamByte(s, pos + ksleft - 64 + j)
  }

  /** Blocks that cover the first `n` bytes of a stream. */
  function BlocksFor(n: nat): nat
  {
    (n + 63) / 64
  }

  /** Blocks chacha_crypt generates for `n` bytes. */
  function Needed(ksleft: nat, n: nat): nat
  {
    if n <= ksleft then 0 else (n - ksleft + 63) / 64
  }

  /** `data` combined with the first bytes of a block. */
  function XorPrefix(data: seq<Byte>, buf: seq<Byte>): (out: seq<Byte>)
    requires |data| <= |buf|
    ensures |out| == |data|
  {
    seq(|data|, i requires 0 <= i < |data| => XorByte(data[i], buf[i]))
  }

  lemma {:induction false} FreshBlock(s: Stream, pos: nat, data: seq<Byte>)
    requires pos % 64 == 0 && |data| <= 64
    ensures XorStream(s, pos, data) == XorPrefix(data, StreamBlock(s, pos / 64))
  {
    hide XorByte, StreamBlock, StreamByte;
    forall i | 0 <= i < |data|
      ensures StreamByte(s, pos + i) == StreamBlock(s, pos / 64)[i]
    {
      BlockSlice(s, pos / 64, i);
    }
  }

  lemma {:induction false} AdvancedCounter(s: Stream, n: nat)
    requires Counter(s.base, s.ivlen) + n < Limit(s.ivlen)
    ensures Counter(Advanced(s, n), s.ivlen) == Counter(s.base, s.ivlen) + n
    ensures Advanced(s, n) == WithCounter(s.base, s.ivlen, Counter(s.base, s.ivlen) + n)
  {
    hide Counter, WithCounter;
  }

  lemma {:induction false} AdvanceOne(s: Stream, n: nat, input: Matrix)
    requires Counter(s.base, s.ivlen) + n + 1 < Limit(s.ivlen)
    requires Counter(Advanced(s, n), s.ivlen) + 1 < Limit(s.ivlen)
    requires input == WithCounter(Advanced(s, n), s.ivlen, Counter(Advanced(s, n), s.ivlen) + 1)
    ensures input == Advanced(s, n + 1)
    ensures Counter(input, s.ivlen) == Counter(Advanced(s, n), s.ivlen) + 1
  {
    hide Counter, WithCounter, Advanced, Limit;
    AdvancedCounter(s, n);
    AdvancedCounter(s, n + 1);
    WithCounterTwice(s.base, s.ivlen, Counter(s.base, s.ivlen) + n, Counter(s.base, s.ivlen) + n + 1);
  }

  /** After a new block of which the first `m` bytes were used. */
  lemma {:induction false} PositionedAfter(s: Stream, pos: nat, m: nat, kstream: seq<Byte>)
    requires pos % 64 == 0 && 0 < m <= 64 && |kstream| == 64
    requires Counter(s.base, s.ivlen) + pos / 64 + 1 < Limit(s.ivlen)
    requires forall j :: m <= j < 64 ==> kstream[j] == StreamBlock(s, pos / 64)[j]
    ensures Positioned(s, pos + m, Advanced(s, pos / 64 + 1), 64 - m, kstream)
  {
    hide StreamBlock, StreamByte, Advanced, Counter, Limit;
    forall j | m <= j < 64
      ensures kstream[j] == StreamByte(s, pos + j)
    {
      BlockSlice(s, pos / 64, j);
    }
  }

  /** After `m` bytes taken from the kept tail. */
  lemma {:induction false} PositionedWithin(s: Stream, pos: nat, input: Matrix, ksleft: nat, kstream: seq<Byte>, m: nat)
    requires Positioned(s, pos, input, ksleft, kstream) && m <= ksleft
    ensures Positioned(s, pos + m, input, ksleft - m, kstream)
  {
    hide StreamByte, Advanced, Counter, Limit;
  }

  /** Rows 1, 2 and 0 filled in this order. */
  lemma {:induction false} RowsLoaded(x: Matrix, r0: seq<Word32>, r1: seq<Word32>, r2: seq<Word32>)
    requires |r0| == 4 && |r1| == 4 && |r2| == 4
    ensures var y := x[..4] + r1 + x[8..]; var z := y[..8] + r2 + y[12..]; z[..0] + r0 + z[4..] == r0 + r1 + r2 + x[12..]
  {
  }

  class State {
    var input: Matrix
    const kstream: array<Byte>
    var ksleft: nat
    var ivlen: nat
    var rounds: int
    ghost var stream: Stream
    ghost var pos: nat

    ghost predicate Valid()
      reads this, kstream
    {
      && kstream.Length == 64
      && stream.ivlen == ivlen && stream.rounds == rounds
      && Positioned(stream, pos, input, ksleft, kstream[..])
    }

    constructor ()
      ensures fresh(kstream) && kstream.Length == 64
    {
      kstream := new Byte[64];
      input := seq(16, _ => 0);
    }

    /** chacha_setup */
    method Setup(key: seq<Byte>, rounds: int)
      requires |key| >= 16
      modifies this
      ensures input == KeyRows(key) + old(input)[12..] && ksleft == old(ksleft)
      ensures this.rounds == (if rounds == 0 then 20 else rounds) && ivlen == 0
    {
      hide LoadRow;
      LoadInto(4, key, 0);
      var constants, offset := TAU, 0;
      if |key| == 32 {
        constants, offset := SIGMA, 16;
      }
      LoadInto(8, key, offset);
      LoadInto(0, constants, 0);
      RowsLoaded(old(input), LoadRow(constants, 0), LoadRow(key, 0), LoadRow(key, offset));
      this.rounds := if rounds == 0 then 20 else rounds;
      ivlen := 0;
    }

    /** Four loads into a row of the matrix. */
    method LoadInto(at: nat, b: seq<Byte>, i: nat)
      requires at + 4 <= 16 && i + 16 <= |b|
      modifies this`input
      ensures input == old(input)[..at] + LoadRow(b, i) + old(input)[at + 4..]
    {
      hide Load32;
      input := input[at := Load32(b, i)];
      input := input[at + 1 := Load32(b, i + 4)];
      input := input[at + 2 := Load32(b, i + 8)];
      input := input[at + 3 := Load32(b, i + 12)];
    }

    /** chacha_ivctr32 */
    method IvCtr32(iv: seq<Byte>, counter: Word32)
      requires |iv| >= 12 && kstream.Length == 64
      modifies this`input, this`ksleft, this`ivlen, this`stream, this`pos
      ensures input == old(input)[..12] + CounterRow32(iv, counter)
      ensures ivlen == |iv| && Valid() && stream == Stream(input, ivlen, rounds) && pos == 0
    {
      input := input[..12] + CounterRow32(iv, counter);
      Restart(|iv|);
    }

    /** chacha_ivctr64 */
    method IvCtr64(iv: seq<Byte>, counter: Word64)
      requires |iv| >= 8 && kstream.Length == 64
      modifies this`input, this`ksleft, this`ivlen, this`stream, this`pos
      ensures input == old(input)[..12] + CounterRow64(iv, counter)
      ensures ivlen == |iv| && Valid() && stream == Stream(input, ivlen, rounds) && pos == 0
    {
      input := input[..12] + CounterRow64(iv, counter);
      Restart(|iv|);
    }

    method Restart(len: nat)
      requires kstream.Length == 64
      modifies this`ksleft, this`ivlen, this`stream, this`pos
      ensures ivlen == len && Valid() && stream == Stream(input, ivlen, rounds) && pos == 0
    {
      hide StreamByte;
      ksleft := 0;
      ivlen := len;
      stream := Stream(input, ivlen, rounds);
      pos := 0;
      assert Counter(input, ivlen) % Limit(ivlen) == Counter(input, ivlen);
    }

    /** `++st->input[12]`, carrying into `st->input[13]` for an 8-byte IV. */
    method Increment() returns (wrapped: bool)
      modifies this`input
      ensures wrapped <==> Counter(old(input), ivlen) + 1 == Limit(ivlen)
      ensures input == WithCounter(old(input), ivlen, if wrapped then 0 else Counter(old(input), ivlen) + 1)
    {
      input := input[12 := Add32(input[12], 1)];
      wrapped := input[12] == 0;
      if ivlen == 8 && wrapped {
        input := input[13 := Add32(input[13], 1)];
        wrapped := input[13] == 0;
      }
    }

    /** chacha_crypt. It reports an overflow exactly when a block is needed whose
        successor counter would wrap to zero; the bytes before that block have
        been written. */
    method Crypt(inp: seq<Byte>) returns (err: Status, out: seq<Byte>)
      requires Valid()
      modifies this`input, this`ksleft, this`pos, kstream
      ensures err == Ok || err == Overflow
      ensures err == Ok <==> Counter(stream.base, ivlen) + BlocksFor(old(pos) + |inp|) < Limit(ivlen)
      ensures err == Ok ==> Valid() && pos == old(pos) + |inp| && out == XorStream(stream, old(pos), inp)
      ensures err == Overflow ==>
        && |out| < |inp| && out == XorStream(stream, old(pos), inp[..|out|])
        && ksleft == 0 && input == WithCounter(stream.base, ivlen, 0)
    {
      hide StreamByte, Limit, Counter, Advanced, Positioned, XorStream, BlocksFor, Needed, WithCounter;
      NeededTotal(stream, pos, input, ksleft, kstream[..], |inp|);
      NeededKept(ksleft, |inp|);
      XorStreamNone(stream, pos);
      var rest := inp;
      out := [];
      if |rest| > 0 && ksleft > 0 {
        var j := if ksleft < |rest| then ksleft else |rest|;
        out := UseKept(rest[..j]);
        rest := rest[j..];
      }
      assert inp[|out|..] == rest;
      if |rest| == 0 {
        assert inp[..|out|] == inp;
        CounterBelow(stream, pos, input, ksleft, kstream[..]);
        return Ok, out;
      }
      err := Ok;
      while err == Ok && |rest| > 0
        invariant err == Ok || err == Overflow
        invariant |out| + |rest| == |inp| && inp[|out|..] == rest
        invariant out == XorStream(stream, old(pos), inp[..|out|])
        invariant err == Ok ==> Valid() && pos == old(pos) + |out| && (|rest| > 0 ==> ksleft == 0)
        invariant err == Ok ==>
          Counter(input, ivlen) + Needed(0, |rest|) == Counter(old(input), ivlen) + Needed(old(ksleft), |inp|)
        invariant err == Overflow ==> |rest| > 0 && ksleft == 0 && input == WithCounter(stream.base, ivlen, 0)
        invariant err == Overflow ==> Counter(old(input), ivlen) + Needed(old(ksleft), |inp|) >= Limit(ivlen)
        decreases |rest|, err == Ok
      {
        ghost var before, c := |out|, Counter(input, ivlen);
        NeededSome(|rest|);
        var used, bytes: seq<Byte>;
        err, used, bytes := NextBlock(rest);
        if err == Ok {
          assert inp[..before + used] == inp[..before] + rest[..used];
          XorStreamConcat(stream, old(pos), inp[..before], rest[..used]);
          NeededStep(|rest|, used);
          out := out + bytes;
          rest := rest[used..];
        }
      }
      if err == Ok {
        assert inp[..|out|] == inp;
        CounterBelow(stream, pos, input, ksleft, kstream[..]);
      }
    }

    /** The first loop: bytes left over from the previous block. */
    method UseKept(data: seq<Byte>) returns (out: seq<Byte>)
      requires Valid() && |data| <= ksleft
      modifies this`ksleft, this`pos
      ensures Valid() && ksleft == old(ksleft) - |data| && pos == old(pos) + |data|
      ensures out == XorStream(stream, old(pos), data)
    {
      hide StreamByte, Advanced, Counter, Limit, XorByte;
      PositionedWithin(stream, pos, input, ksleft, kstream[..], |data|);
      out := [];
      for i := 0 to |data|
        invariant ksleft == old(ksleft) - i && out == XorStream(stream, old(pos), data[..i])
        modifies this`ksleft
      {
        out := out + [XorByte(data[i], kstream[64 - ksleft])];
        ksleft := ksleft - 1;
        assert kstream[..][64 - old(ksleft) + i] == StreamByte(stream, old(pos) + i);
      }
      assert data[..|data|] == data;
      pos := pos + |data|;
    }

    /** One turn of the unbounded loop: a block, an increment, at most 64 bytes. */
    method NextBlock(rest: seq<Byte>) returns (err: Status, used: nat, out: seq<Byte>)
      requires Valid() && ksleft == 0 && |rest| > 0
      modifies this`input, this`ksleft, this`pos, kstream
      ensures err == (if Counter(old(input), ivlen) + 1 == Limit(ivlen) then Overflow else Ok)
      ensures err == Overflow ==> ksleft == 0 && input == WithCounter(stream.base, ivlen, 0)
      ensures err == Ok ==>
        && Valid() && used == (if |rest| <= 64 then |rest| else 64)
        && pos == old(pos) + used && out == XorStream(stream, old(pos), rest[..used])
        && Counter(input, ivlen) == Counter(old(input), ivlen) + 1
        && (used == 64 ==> ksleft == 0)
    {
      hide StreamBlock, Advanced, Counter, Limit, Positioned, XorStream, XorPrefix, WithCounter;
      used, out := 0, [];
      var wrapped, buf := Generate();
      if wrapped {
        return Overflow, used, out;
      }
      err := Ok;
      used := if |rest| <= 64 then |rest| else 64;
      FreshBlock(stream, pos, rest[..used]);
      out := XorWithBlock(rest[..used], buf);
      KeepTail(buf, used);
    }

    /** The next block of the stream, and the counter after it. */
    method Generate() returns (wrapped: bool, buf: seq<Byte>)
      requires Valid() && ksleft == 0
      modifies this`input
      ensures wrapped <==> Counter(old(input), ivlen) + 1 == Limit(ivlen)
      ensures wrapped ==> input == WithCounter(stream.base, ivlen, 0)
      ensures pos % 64 == 0 && buf == StreamBlock(stream, pos / 64)
      ensures !wrapped ==> Counter(stream.base, ivlen) + pos / 64 + 1 < Limit(ivlen)
      ensures !wrapped ==> input == Advanced(stream, pos / 64 + 1) && Counter(input, ivlen) == Counter(old(input), ivlen) + 1
    {
      hide StreamBlock, Advanced, Counter, Limit, WithCounter, Positioned, BlockBytes;
      ghost var n := pos / 64;
      AtBlockStart(stream, pos, input, kstream[..]);
      AdvancedCounter(stream, n);
      buf := Block(input, rounds);
      StreamBlockIs(stream, n);
      wrapped := Increment();
      WithCounterTwice(stream.base, ivlen, Counter(stream.base, ivlen) + n, 0);
      if !wrapped {
        AdvanceOne(stream, n, input);
      }
    }

    /** The unused tail of a new block is kept for the next call. */
    method KeepTail(buf: seq<Byte>, used: nat)
      requires kstream.Length == 64 && stream.ivlen == ivlen && stream.rounds == rounds
      requires pos % 64 == 0 && 0 < used <= 64 && buf == StreamBlock(stream, pos / 64)
      requires Counter(stream.base, ivlen) + pos / 64 + 1 < Limit(ivlen) && input == Advanced(stream, pos / 64 + 1)
      modifies this`ksleft, this`pos, kstream
      ensures Valid() && ksleft == 64 - used && pos == old(pos) + used
    {
      hide StreamByte, StreamBlock, Advanced, Counter, Limit;
      ksleft := 64 - used;
      for i := used to 64
        invariant forall j :: used <= j < i ==> kstream[j] == buf[j]
        modifies kstream
      {
        kstream[i] := buf[i];
      }
      PositionedAfter(stream, pos, used, kstream[..]);
      pos := pos + used;
    }
  }

  lemma {:induction false} AtBlockStart(s: Stream, pos: nat, input: Matrix, kstream: seq<Byte>)
    requires Positioned(s, pos, input, 0, kstream)
    ensures pos % 64 == 0 && Counter(s.base, s.ivlen) + pos / 64 < Limit(s.ivlen) && input == Advanced(s, pos / 64)
  {
  }

  lemma {:induction false} StreamBlockIs(s: Stream, n: nat)
    ensures StreamBlock(s, n) == BlockBytes(Advanced(s, n), s.rounds)
  {
  }

  lemma {:induction false} NeededKept(ksleft: nat, n: nat)
    ensures n <= ksleft ==> Needed(ksleft, n) == 0
    ensures n > ksleft ==> Needed(0, n - ksleft) == Needed(ksleft, n)
    ensures Needed(0, 0) == 0
  {
  }

  lemma {:induction false} XorStreamNone(s: Stream, pos: nat)
    ensures XorStream(s, pos, []) == []
  {
    hide StreamByte;
  }

  lemma {:induction false} NeededSome(n: nat)
    requires n > 0
    ensures Needed(0, n) >= 1
  {
  }

  lemma {:induction false} NeededStep(n: nat, used: nat)
    requires n > 0 && used == (if n <= 64 then n else 64)
    ensures Needed(0, n) == 1 + Needed(0, n - used)
  {
  }

  /** How often chacha_crypt increments does not depend on earlier chunking. */
  lemma {:induction false} NeededTotal(s: Stream, pos: nat, input: Matrix, ksleft: nat, kstream: seq<Byte>, n: nat)
    requires Positioned(s, pos, input, ksleft, kstream)
    ensures Counter(input, s.ivlen) + Needed(ksleft, n) == Counter(s.base, s.ivlen) + BlocksFor(pos + n)
  {
    hide Counter, Limit, Advanced, StreamByte;
    AdvancedCounter(s, (pos + ksleft) / 64);
  }

  lemma {:induction false} CounterBelow(s: Stream, pos: nat, input: Matrix, ksleft: nat, kstream: seq<Byte>)
    requires Positioned(s, pos, input, ksleft, kstream)
    ensures Counter(input, s.ivlen) < Limit(s.ivlen)
  {
    hide Limit;
  }

  method XorWithBlock(data: seq<Byte>, buf: seq<Byte>) returns (out: seq<Byte>)
    requires |data| <= |buf|
    ensures out == XorPrefix(data, buf)
  {
    hide XorByte;
    out := [];
    for i := 0 to |data|
      invariant |out| == i && forall j :: 0 <= j < i ==> out[j] == XorByte(data[j], buf[j])
    {
      out := out + [XorByte(data[i], buf[i])];
    }
  }

  // --- Any sequence of calls ----------------------------------------------------------

  /** Successive chacha_crypt calls, stopping at the first overflow: the
      concatenated output is the concatenated input combined with one keystream,
      and an overflow is reported exactly when the whole input needs too many
      blocks, however it is cut. */
  method CryptChunks(st: State, chunks: seq<seq<Byte>>) returns (err: Status, out: seq<seq<Byte>>)
    requires st.Valid() && st.pos == 0
    modifies st`input, st`ksleft, st`pos, st.kstream
    ensures err == Ok <==> Counter(st.stream.base, st.ivlen) + BlocksFor(|Flatten(chunks)|) < Limit(st.ivlen)
    ensures err == Ok ==> st.Valid() && st.pos == |Flatten(chunks)|
    ensures err == Ok ==> |out| == |chunks| && Flatten(out) == XorStream(st.stream, 0, Flatten(chunks))
  {
    hide Positioned, XorStream, Counter, Limit;
    err, out := Ok, [];
    var i := 0;
    StartFits(st.stream, st.input, st.ksleft, st.kstream[..]);
    while i < |chunks|
      invariant err == Ok && 0 <= i <= |chunks| && st.Valid() && st.pos == |Flatten(chunks[..i])|
      invariant Counter(st.stream.base, st.ivlen) + BlocksFor(st.pos) < Limit(st.ivlen)
      invariant |out| == i && Flatten(out) == XorStream(st.stream, 0, Flatten(chunks[..i]))
    {
      assert chunks[..i + 1][..i] == chunks[..i];
      ghost var before := Flatten(chunks[..i]);
      XorStreamConcat(st.stream, 0, before, chunks[i]);
      var bytes: seq<Byte>;
      err, bytes := st.Crypt(chunks[i]);
      if err != Ok {
        FlattenPrefix(chunks, i + 1);
        return;
      }
      assert (out + [bytes])[..i] == out;
      out := out + [bytes];
      i := i + 1;
    }
    assert chunks[..|chunks|] == chunks;
  }

  // --- After an overflow ----------------------------------------------------------------

  /** The stream from counter 0 on. */
  function Restarted(s: Stream): Stream
  {
    Stream(WithCounter(s.base, s.ivlen, 0), s.ivlen, s.rounds)
  }

  /** Its blocks from the old counter on are the old ones. */
  lemma {:induction false} RestartRepeats(s: Stream, n: nat)
    requires Counter(s.base, s.ivlen) + n < Limit(s.ivlen)
    ensures StreamBlock(Restarted(s), Counter(s.base, s.ivlen) + n) == StreamBlock(s, n)
  {
    hide BlockBytes, Limit, WithCounter, Counter;
    var c := Counter(s.base, s.ivlen) + n;
    WithCounterTwice(s.base, s.ivlen, 0, c);
    AdvancedCounter(s, n);
    AdvancedCounter(Restarted(s), c);
  }

  lemma {:induction false} RestartedPosition(s: Stream, kstream: seq<Byte>)
    requires |kstream| == 64
    ensures Positioned(Restarted(s), 0, WithCounter(s.base, s.ivlen, 0), 0, kstream)
  {
    hide WithCounter, Counter, StreamByte;
    AdvancedCounter(Restarted(s), 0);
  }

  /** A call after one that reported an overflow goes on with the stream from counter 0, whose blocks from the old
      counter on have been used before. */
  method CryptOnwards(st: State, inp: seq<Byte>, next: seq<Byte>)
    returns (err: Status, out: seq<Byte>, err': Status, out': seq<Byte>)
    requires st.Valid()
    modifies st`input, st`ksleft, st`pos, st`stream, st.kstream
    ensures err == Ok <==> Counter(old(st.stream).base, st.ivlen) + BlocksFor(old(st.pos) + |inp|) < Limit(st.ivlen)
    ensures err == Overflow ==> (err' == Ok <==> BlocksFor(|next|) < Limit(st.ivlen))
    ensures err == Overflow && err' == Ok ==> out' == XorStream(Restarted(old(st.stream)), 0, next)
    ensures err == Ok && err' == Ok ==> out + out' == XorStream(old(st.stream), old(st.pos), inp + next)
  {
    hide Positioned, XorStream, Counter, Limit, WithCounter, BlocksFor;
    ghost var s := st.stream;
    err, out := st.Crypt(inp);
    if err == Overflow {
      RestartedPosition(s, st.kstream[..]);
      st.stream, st.pos := Restarted(s), 0;
    }
    err', out' := st.Crypt(next);
    XorStreamConcat(s, old(st.pos), inp, next);
  }

  lemma {:induction false} StartFits(s: Stream, input: Matrix, ksleft: nat, kstream: seq<Byte>)
    requires Positioned(s, 0, input, ksleft, kstream)
    ensures Counter(s.base, s.ivlen) + BlocksFor(0) < Limit(s.ivlen)
    ensures XorStream(s, 0, []) == []
  {
    hide Limit;
  }
}
