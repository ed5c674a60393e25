/** The ChaCha20-Poly1305 session of chacha20poly1305_memory.c: setiv, add_aad,
    encrypt and decrypt over the two streaming states. */
module Aead {
  import opened Words
  import opened LittleEndian
  import opened ChaChaBlock
  import opened ChaCha
  import Poly1305
  import Poly1305Arithmetic
  import Poly1305Final
  import Poly1305Spec

  /** The fourth matrix row chacha20poly1305_setiv chooses. */
  function CounterRow(iv: seq<Byte>, counter: nat): (x: seq<Word32>)
    requires |iv| >= 8 && counter < 2
    ensures |x| == 4
  {
    if |iv| == 12 then CounterRow32(iv, counter) else CounterRow64(iv, counter)
  }

  /** The stream that starts at block `counter`. */
  function StreamFor(rows: seq<Word32>, iv: seq<Byte>, counter: nat, rounds: int): Stream
    requires |rows| == 12 && |iv| >= 8 && counter < 2
  {
    Stream(rows + CounterRow(iv, counter), |iv|, rounds)
  }

  /** Section 2.6 of RFC 8439: the one-time key is the start of block 0. */
  function OneTimeKey(rows: seq<Word32>, iv: seq<Byte>): (k: seq<Byte>)
    requires |rows| == 12 && |iv| >= 8
    ensures |k| == 32
  {
    StreamBlock(StreamFor(rows, iv, 0, 20), 0)[..32]
  }

  function Zeros(n: nat): (z: seq<Byte>)
    ensures |z| == n
  {
    seq(n, _ => 0)
  }

  /** pad16 of section 2.8 of RFC 8439. */
  function Pad16(data: seq<Byte>): seq<Byte>
  {
    Zeros((16 - |data| % 16) % 16)
  }

  /** Padding fills the last block of 16 bytes with zeros, and adds no block. */
  lemma {:induction false} PadFills(data: seq<Byte>)
    ensures |data + Pad16(data)| % 16 == 0 && |Pad16(data)| < 16 && forall b :: b in Pad16(data) ==> b == 0
  {
  }

  /** The authenticated string: the AAD is padded once, when data begins. */
  function Authenticated(aad: seq<Byte>, dataBegun: bool, ct: seq<Byte>): seq<Byte>
  {
    if dataBegun then aad + Pad16(aad) + ct else aad
  }

  lemma {:induction false} AuthenticatedAppend(aad: seq<Byte>, ct: seq<Byte>, more: seq<Byte>)
    ensures Authenticated(aad, true, ct) + more == Authenticated(aad, true, ct + more)
  {
    assert aad + Pad16(aad) + ct + more == aad + Pad16(aad) + (ct + more);
  }

  class Session {
    const poly: Poly1305.State
    const chacha: ChaCha.State
    var aadlen: Word64
    var ctlen: Word64
    var aadflg: bool
    ghost var polyKey: seq<Byte>
    ghost var aad: seq<Byte>
    ghost var ct: seq<Byte>

    ghost predicate Separate()
      reads this
    {
      poly.buffer != chacha.kstream
    }

    /** The authenticator has seen the AAD, padded once it is closed, and the bytes `c`. */
    ghost predicate Seen(c: seq<Byte>)
      reads this, poly, poly.buffer
    {
      && Separate()
      && poly.Valid()
      && |polyKey| == 32 && poly.r == Poly1305.ClampLimbs(polyKey) && poly.pad == Poly1305.PadWords(polyKey)
      && poly.absorbed == Authenticated(aad, !aadflg, c)
    }

    ghost predicate Authenticating()
      reads this, poly, poly.buffer
    {
      Seen(ct) && aadlen == |aad| % W64 && ctlen == |ct| % W64 && (aadflg ==> ct == [])
    }

    ghost predicate Valid()
      reads this, poly, poly.buffer, chacha, chacha.kstream
    {
      Authenticating() && chacha.Valid() && chacha.pos == |ct|
    }

    /** chacha20poly1305_init */
    constructor (key: seq<Byte>)
      requires |key| >= 16
      ensures Separate() && poly.buffer.Length == 16 && chacha.kstream.Length == 64
      ensures fresh(poly) && fresh(poly.buffer) && fresh(chacha) && fresh(chacha.kstream)
      ensures chacha.input[..12] == KeyRows(key) && chacha.rounds == 20
    {
      poly := new Poly1305.State();
      chacha := new ChaCha.State();
      aadlen, ctlen := 0, 0;
      new;
      chacha.Setup(key, 20);
    }

    /** chacha20poly1305_setiv */
    method SetIv(iv: seq<Byte>)
      requires |iv| >= 8
      requires Separate() && poly.buffer.Length == 16 && chacha.kstream.Length == 64
      modifies this, poly, chacha
      ensures Valid() && aadflg && aad == [] && ct == []
      ensures chacha.stream == StreamFor(old(chacha.input)[..12], iv, 1, old(chacha.rounds))
      ensures polyKey == OneTimeKey(old(chacha.input)[..12], iv)
    {
      hide LoadRow, Positioned, CounterRow32, CounterRow64, Poly1305.Represents, Poly1305.ClampLimbs, Poly1305.PadWords;
      hide StreamBlock, And, LE, Counter, Limit;
      ghost var rows := chacha.input[..12];
      if |iv| == 12 {
        chacha.IvCtr32(iv, 1);
      } else {
        chacha.IvCtr64(iv, 1);
      }
      assert chacha.input[..12] == rows;
      var key := FirstBlock(chacha.input[..12], iv);
      poly.Init(key);
      polyKey, aad, ct := key, [], [];
      ctlen, aadlen, aadflg := 0, 0, true;
    }

    /** "no more AAD": pad the AAD to a multiple of 16, once. */
    method CloseAad()
      requires Authenticating()
      modifies this`aadflg, poly`h, poly`leftover, poly`absorbed, poly.buffer
      ensures Authenticating() && !aadflg
    {
      hide Positioned, Poly1305.Represents, Poly1305.ClampLimbs, Poly1305.PadWords;
      if aadflg {
        var padlen := 16 - aadlen % 16;
        LengthMod16(|aad|);
        if padlen < 16 {
          poly.Process(Zeros(padlen));
        }
        aadflg := false;
        assert aad + Pad16(aad) + [] == aad + Pad16(aad);
        assert padlen == 16 ==> Pad16(aad) == [] && aad + [] == aad;
      }
    }

    /** Close the AAD and authenticate bytes of ciphertext. */
    method Absorb(data: seq<Byte>)
      requires Authenticating()
      modifies this`aadflg, poly`h, poly`leftover, poly`absorbed, poly.buffer
      ensures Seen(ct + data) && !aadflg
    {
      hide Authenticated, Poly1305.Represents, Poly1305.ClampLimbs, Poly1305.PadWords;
      CloseAad();
      poly.Process(data);
      AuthenticatedAppend(aad, ct, data);
    }

    /** Count bytes of ciphertext that have been authenticated. */
    method Count(data: seq<Byte>)
      requires Seen(ct + data) && !aadflg && aadlen == |aad| % W64 && ctlen == |ct| % W64
      modifies this`ctlen, this`ct
      ensures Authenticating() && ct == old(ct) + data
    {
      hide Authenticated, Poly1305.Represents, Poly1305.ClampLimbs, Poly1305.PadWords, Add64;
      LengthAdd(|ct|, |data|);
      ctlen := Add64(ctlen, |data|);
      ct := ct + data;
    }

    /** chacha20poly1305_add_aad */
    method AddAad(inp: seq<Byte>) returns (err: Status)
      requires Valid()
      modifies this`aadlen, this`aad, poly`h, poly`leftover, poly`absorbed, poly.buffer
      ensures err == (if inp != [] && !aadflg then Error else Ok)
      ensures Valid() && aad == (if err == Ok then old(aad) + inp else old(aad))
    {
      hide Positioned, Poly1305.Represents, Poly1305.ClampLimbs, Poly1305.PadWords;
      if |inp| == 0 {
        assert aad + inp == aad;
        return Ok;
      }
      if !aadflg {
        return Error;
      }
      poly.Process(inp);
      aadlen := Add64(aadlen, |inp|);
      aad := aad + inp;
      return Ok;
    }

    /** chacha20poly1305_encrypt: cipher first, then authenticate the output. */
    method Encrypt(inp: seq<Byte>) returns (err: Status, out: seq<Byte>)
      requires Valid()
      modifies this`ctlen, this`aadflg, this`ct, poly`h, poly`leftover, poly`absorbed, poly.buffer
      modifies chacha`input, chacha`ksleft, chacha`pos, chacha.kstream
      ensures err == Ok <==>
        inp == [] || Counter(chacha.stream.base, chacha.ivlen) + BlocksFor(|old(ct)| + |inp|) < Limit(chacha.ivlen)
      ensures err == Ok ==> Valid() && out == XorStream(chacha.stream, |old(ct)|, inp) && ct == old(ct) + out
      ensures err == Ok ==> aadflg == (old(aadflg) && inp == [])
      ensures err != Ok ==> poly.absorbed == old(poly.absorbed)
    {
      hide Positioned, XorStream, Counter, Limit, BlocksFor, Authenticated;
      hide Poly1305.Represents, Poly1305.ClampLimbs, Poly1305.PadWords;
      if |inp| == 0 {
        EmptyXor(chacha.stream, |ct|);
        assert ct + [] == ct;
        return Ok, [];
      }
      err, out := chacha.Crypt(inp);
      if err != Ok {
        return;
      }
      Absorb(out);
      Count(out);
    }

    /** chacha20poly1305_decrypt: authenticate the input, then decipher. */
    method Decrypt(inp: seq<Byte>) returns (err: Status, out: seq<Byte>)
      requires Valid()
      modifies this`ctlen, this`aadflg, this`ct, poly`h, poly`leftover, poly`absorbed, poly.buffer
      modifies chacha`input, chacha`ksleft, chacha`pos, chacha.kstream
      ensures err == Ok <==>
        inp == [] || Counter(chacha.stream.base, chacha.ivlen) + BlocksFor(|old(ct)| + |inp|) < Limit(chacha.ivlen)
      ensures err == Ok ==> Valid() && out == XorStream(chacha.stream, |old(ct)|, inp) && ct == old(ct) + inp
      ensures err == Ok ==> aadflg == (old(aadflg) && inp == [])
      ensures err != Ok ==> poly.absorbed == Authenticated(aad, true, old(ct) + inp)
    {
      hide Positioned, XorStream, Counter, Limit, BlocksFor, Authenticated;
      hide Poly1305.Represents, Poly1305.ClampLimbs, Poly1305.PadWords;
      if |inp| == 0 {
        EmptyXor(chacha.stream, |ct|);
        assert ct + [] == ct;
        return Ok, [];
      }
      Absorb(inp);
      err, out := chacha.Crypt(inp);
      if err == Ok {
        Count(inp);
      }
    }
  }

  lemma {:induction false} LengthAdd(n: nat, m: nat)
    ensures Add64(n % W64, m) == (n + m) % W64
  {
  }

  /** chacha_keystream on a temporary state with counter 0. */
  method FirstBlock(rows: seq<Word32>, iv: seq<Byte>) returns (key: seq<Byte>)
    requires |rows| == 12 && |iv| >= 8
    ensures key == OneTimeKey(rows, iv)
  {
    hide LoadRow, Positioned, CounterRow32, CounterRow64, StreamBlock;
    var tmp := new ChaCha.State();
    tmp.input := rows + tmp.input[12..];
    tmp.rounds := 20;
    if |iv| == 12 {
      tmp.IvCtr32(iv, 0);
    } else {
      tmp.IvCtr64(iv, 0);
    }
    assert tmp.input[..12] == rows;
    ghost var s := StreamFor(rows, iv, 0, 20);
    assert tmp.stream == s;
    FirstCounter(rows, iv);
    var err;
    err, key := tmp.Crypt(Zeros(32));
    FirstBytes(s);
  }

  lemma {:induction false} FirstCounter(rows: seq<Word32>, iv: seq<Byte>)
    requires |rows| == 12 && |iv| >= 8
    ensures Counter(StreamFor(rows, iv, 0, 20).base, |iv|) + BlocksFor(0 + 32) < Limit(|iv|)
  {
  }

  lemma {:induction false} FirstBytes(s: Stream)
    ensures XorStream(s, 0, Zeros(32)) == StreamBlock(s, 0)[..32]
  {
    hide StreamBlock;
    FreshBlock(s, 0, Zeros(32));
    forall b: Byte
      ensures XorByte(0, b) == b
    {
      BitwiseZero(XorOp, b);
    }
  }

  lemma {:induction false} EmptyXor(s: Stream, pos: nat)
    ensures XorStream(s, pos, []) == []
  {
  }

  /** Reducing a length to 64 bits does not change it modulo 16. */
  lemma {:induction false} LengthMod16(n: nat)
    ensures n % W64 % 16 == n % 16
  {
  }

  // --- Whole sessions ---------------------------------------------------------------

  /** `data` cut into pieces of the given lengths; the last piece is the rest. */
  function Cut(data: seq<Byte>, lens: seq<nat>): seq<seq<Byte>>
    decreases |lens|
  {
    if lens == [] then [data]
    else
      var n := if lens[|lens| - 1] < |data| then lens[|lens| - 1] else |data|;
      Cut(data[..n], lens[..|lens| - 1]) + [data[n..]]
  }

  lemma {:induction false} FlattenCut(data: seq<Byte>, lens: seq<nat>)
    ensures Flatten(Cut(data, lens)) == data
    decreases |lens|
  {
    if lens == [] {
      assert [data][..0] == [];
      assert Flatten([data]) == [] + data;
    } else {
      var n := if lens[|lens| - 1] < |data| then lens[|lens| - 1] else |data|;
      var front := Cut(data[..n], lens[..|lens| - 1]);
      FlattenCut(data[..n], lens[..|lens| - 1]);
      assert (front + [data[n..]])[..|front|] == front;
      assert data[..n] + data[n..] == data;
    }
  }

  /** A keyed session that has taken the AAD in any pieces. */
  method Begin(key: seq<Byte>, iv: seq<Byte>, aad: seq<seq<Byte>>) returns (s: Session)
    requires |key| >= 16 && |iv| >= 8
    ensures s.Valid() && s.aad == Flatten(aad) && s.ct == [] && s.aadflg
    ensures s.polyKey == OneTimeKey(KeyRows(key), iv) && s.chacha.stream == StreamFor(KeyRows(key), iv, 1, 20)
    ensures fresh(s) && fresh(s.poly) && fresh(s.poly.buffer) && fresh(s.chacha) && fresh(s.chacha.kstream)
  {
    hide KeyRows, Positioned, Poly1305.Represents, Poly1305.ClampLimbs, Poly1305.PadWords, StreamBlock, CounterRow;
    s := new Session(key);
    s.SetIv(iv);
    for i := 0 to |aad|
      invariant s.Valid() && s.aadflg && s.ct == [] && s.aad == Flatten(aad[..i])
      invariant s.polyKey == OneTimeKey(KeyRows(key), iv) && s.chacha.stream == StreamFor(KeyRows(key), iv, 1, 20)
    {
      var err := s.AddAad(aad[i]);
      assert aad[..i + 1][..i] == aad[..i];
    }
    assert aad[..|aad|] == aad;
  }

  /** `n` bytes of the stream can be used before its counter wraps. */
  predicate Enough(s: Stream, n: nat)
  {
    Counter(s.base, s.ivlen) + BlocksFor(n) < Limit(s.ivlen)
  }

  lemma {:induction false} StartsEnough(s: Stream, input: Matrix, ksleft: nat, kstream: seq<Byte>)
    requires Positioned(s, 0, input, ksleft, kstream)
    ensures Enough(s, 0)
  {
    hide Limit;
    StartFits(s, input, ksleft, kstream);
  }

  /** Encrypt calls on the given pieces, stopping at the first error. */
  method EncryptAll(s: Session, chunks: seq<seq<Byte>>) returns (err: Status, out: seq<Byte>)
    requires s.Valid() && s.ct == []
    modifies s`ctlen, s`aadflg, s`ct, s.poly`h, s.poly`leftover, s.poly`absorbed, s.poly.buffer
    modifies s.chacha`input, s.chacha`ksleft, s.chacha`pos, s.chacha.kstream
    ensures err == Ok <==> Enough(s.chacha.stream, |Flatten(chunks)|)
    ensures err == Ok ==> out == XorStream(s.chacha.stream, 0, Flatten(chunks))
    ensures err == Ok ==> s.Valid() && s.ct == out
    ensures err == Ok ==> s.aadflg == (old(s.aadflg) && Flatten(chunks) == [])
  {
    hide Positioned, XorStream, Counter, Limit, Session.Authenticating, Authenticated, Poly1305.Represents;
    err, out := Ok, [];
    EmptyXor(s.chacha.stream, 0);
    StartsEnough(s.chacha.stream, s.chacha.input, s.chacha.ksleft, s.chacha.kstream[..]);
    var i := 0;
    while i < |chunks|
      invariant err == Ok && 0 <= i <= |chunks| && s.Valid()
      invariant Enough(s.chacha.stream, |Flatten(chunks[..i])|)
      invariant out == XorStream(s.chacha.stream, 0, Flatten(chunks[..i])) && s.ct == out
      invariant s.aadflg == (old(s.aadflg) && Flatten(chunks[..i]) == [])
    {
      assert chunks[..i + 1][..i] == chunks[..i];
      ghost var before := Flatten(chunks[..i]);
      XorStreamConcat(s.chacha.stream, 0, before, chunks[i]);
      var bytes;
      err, bytes := s.Encrypt(chunks[i]);
      if err != Ok {
        FlattenPrefix(chunks, i + 1);
        return;
      }
      assert chunks[i] == [] ==> before + chunks[i] == before;
      out := out + bytes;
      i := i + 1;
    }
    assert chunks[..|chunks|] == chunks;
  }

  /** Decrypt calls on the given pieces, stopping at the first error. */
  method DecryptAll(s: Session, chunks: seq<seq<Byte>>) returns (err: Status, out: seq<Byte>)
    requires s.Valid() && s.ct == []
    modifies s`ctlen, s`aadflg, s`ct, s.poly`h, s.poly`leftover, s.poly`absorbed, s.poly.buffer
    modifies s.chacha`input, s.chacha`ksleft, s.chacha`pos, s.chacha.kstream
    ensures err == Ok <==> Enough(s.chacha.stream, |Flatten(chunks)|)
    ensures err == Ok ==> out == XorStream(s.chacha.stream, 0, Flatten(chunks))
    ensures err == Ok ==> s.Valid() && s.ct == Flatten(chunks)
    ensures err == Ok ==> s.aadflg == (old(s.aadflg) && Flatten(chunks) == [])
  {
    hide Positioned, XorStream, Counter, Limit, Session.Authenticating, Authenticated, Poly1305.Represents;
    err, out := Ok, [];
    EmptyXor(s.chacha.stream, 0);
    StartsEnough(s.chacha.stream, s.chacha.input, s.chacha.ksleft, s.chacha.kstream[..]);
    var i := 0;
    while i < |chunks|
      invariant err == Ok && 0 <= i <= |chunks| && s.Valid()
      invariant Enough(s.chacha.stream, |Flatten(chunks[..i])|)
      invariant out == XorStream(s.chacha.stream, 0, Flatten(chunks[..i])) && s.ct == Flatten(chunks[..i])
      invariant s.aadflg == (old(s.aadflg) && Flatten(chunks[..i]) == [])
    {
      assert chunks[..i + 1][..i] == chunks[..i];
      ghost var before := Flatten(chunks[..i]);
      XorStreamConcat(s.chacha.stream, 0, before, chunks[i]);
      var bytes;
      err, bytes := s.Decrypt(chunks[i]);
      if err != Ok {
        FlattenPrefix(chunks, i + 1);
        return;
      }
      assert chunks[i] == [] ==> before + chunks[i] == before;
      out := out + bytes;
      i := i + 1;
    }
    assert chunks[..|chunks|] == chunks;
  }

  /** The tag poly1305_done produces for a session. */
  method Tag(s: Session) returns (tag: seq<Byte>)
    requires s.Valid()
    modifies s.poly`r, s.poly`h, s.poly`pad, s.poly`final, s.poly.buffer
    ensures tag == Poly1305Spec.Mac(s.polyKey, Authenticated(s.aad, !s.aadflg, s.ct))
  {
    hide Positioned, Authenticated, Poly1305.Represents, Poly1305.ClampLimbs, Poly1305.PadWords, And, LE, Bytes,
      Poly1305Spec.Accumulate, Poly1305Arithmetic.Value, Poly1305Final.Value128;
    Poly1305.ClampCorrect(s.polyKey);
    Poly1305.PadCorrect(s.polyKey);
    tag := s.poly.Done();
  }

  /** Decrypting the ciphertext in any pieces gives back the plaintext that was
      encrypted in any other pieces, and both sides have authenticated the same
      string: AAD, one padding to 16, ciphertext. Either side reports an error
      exactly when the whole message needs more blocks than the counter allows. */
  method RoundTrip(key: seq<Byte>, iv: seq<Byte>, aad: seq<seq<Byte>>, aad': seq<seq<Byte>>,
                   pt: seq<seq<Byte>>, cuts: seq<nat>)
    returns (err: Status, ct: seq<Byte>, recovered: seq<Byte>, tag: seq<Byte>, tag': seq<Byte>, ctlen: Word64, ctlen': Word64)
    requires |key| >= 16 && |iv| >= 8 && Flatten(aad) == Flatten(aad')
    ensures err == Ok <==> 1 + BlocksFor(|Flatten(pt)|) < Limit(|iv|)
    ensures err == Ok ==> ct == XorStream(StreamFor(KeyRows(key), iv, 1, 20), 0, Flatten(pt))
    ensures err == Ok ==> recovered == Flatten(pt) && ctlen == ctlen' == |ct| % W64
    ensures err == Ok ==>
      tag == tag' == Poly1305Spec.Mac(OneTimeKey(KeyRows(key), iv), Authenticated(Flatten(aad), ct != [], ct))
  {
    hide KeyRows, Positioned, XorStream, Limit, Authenticated, Session.Authenticating;
    hide OneTimeKey, Poly1305Spec.Mac, CounterRow, StreamFor;
    recovered, tag, tag', ctlen, ctlen' := [], [], [], 0, 0;
    var enc := Begin(key, iv, aad);
    var dec := Begin(key, iv, aad');
    ghost var s := StreamFor(KeyRows(key), iv, 1, 20);
    FirstIsOne(KeyRows(key), iv);
    err, ct := EncryptAll(enc, pt);
    if err != Ok {
      return;
    }
    XorStreamTwice(s, 0, Flatten(pt));
    FlattenCut(ct, cuts);
    err, recovered := DecryptAll(dec, Cut(ct, cuts));
    SameLengths(enc, dec, ct);
    ctlen, ctlen' := enc.ctlen, dec.ctlen;
    tag := Tag(enc);
    tag' := Tag(dec);
  }

  lemma {:induction false} SameLengths(enc: Session, dec: Session, ct: seq<Byte>)
    requires enc.Valid() && dec.Valid() && enc.ct == dec.ct == ct
    ensures enc.ctlen == dec.ctlen == |ct| % W64
  {
    hide Positioned, Authenticated, Poly1305.Represents, Poly1305.ClampLimbs, Poly1305.PadWords;
  }

  lemma {:induction false} FirstIsOne(rows: seq<Word32>, iv: seq<Byte>)
    requires |rows| == 12 && |iv| >= 8
    ensures StreamFor(rows, iv, 1, 20).ivlen == |iv|
    ensures Counter(StreamFor(rows, iv, 1, 20).base, |iv|) == 1
  {
  }
}
