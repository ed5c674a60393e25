/** The .ktest file format of KTest.cpp as functions: what the writer produces and what the reader
    accepts. */
module KTestFormat {
  import opened Words

  datatype Object = Object(name: seq<Byte>, bytes: seq<Byte>)

  /** struct KTest; the counts are the lengths of the sequences. */
  datatype KTest = KTest(version: nat, args: seq<seq<Byte>>, symArgvs: nat, symArgvLen: nat, objects: seq<Object>)

  const VERSION := 3
  const MAGIC: seq<Byte> := [75, 84, 69, 83, 84] // "KTEST"
  const OLD_MAGIC: seq<Byte> := [66, 79, 85, 84, 10] // "BOUT\n"

  /** The characters of a header as bytes. */
  function Ascii(s: string): seq<Byte>
    requires forall i :: 0 <= i < |s| ==> s[i] <= '~'
  {
    seq(|s|, i requires 0 <= i < |s| => Code(s[i]))
  }

  function Code(c: char): Byte
    requires c <= '~'
  {
    c as int
  }

  lemma {:induction false} Headers()
    ensures MAGIC == Ascii("KTEST") && OLD_MAGIC == Ascii("BOUT\n")
  {
  }

  // --- Values a record can hold in memory ------------------------------------------------------

  predicate Fits(n: nat) { n < W32 }

  /** A C string: no terminating zero inside. */
  predicate CString(s: seq<Byte>) { 0 !in s && Fits(|s|) }

  predicate Storable(k: KTest)
  {
    && Fits(|k.args|) && Fits(k.symArgvs) && Fits(k.symArgvLen) && Fits(|k.objects|)
    && (forall a :: a in k.args ==> CString(a))
    && (forall o :: o in k.objects ==> CString(o.name) && Fits(|o.bytes|))
  }

  // --- Writing -----------------------------------------------------------------------------------

  function Put32(n: nat): (r: seq<Byte>)
    ensures |r| == 4
  {
    [n / 0x100_0000 % 0x100, n / 0x1_0000 % 0x100, n / 0x100 % 0x100, n % 0x100]
  }

  function PutString(s: seq<Byte>): seq<Byte> { Put32(|s|) + s }

  function PutStrings(s: seq<seq<Byte>>): seq<Byte>
  {
    if |s| == 0 then [] else PutStrings(s[..|s| - 1]) + PutString(s[|s| - 1])
  }

  function PutObject(o: Object): seq<Byte> { PutString(o.name) + PutString(o.bytes) }

  function PutObjects(s: seq<Object>): seq<Byte>
  {
    if |s| == 0 then [] else PutObjects(s[..|s| - 1]) + PutObject(s[|s| - 1])
  }

  function Encode(k: KTest): seq<Byte>
  {
    MAGIC + Put32(VERSION) + Put32(|k.args|) + PutStrings(k.args) + Put32(k.symArgvs) + Put32(k.symArgvLen) +
    Put32(|k.objects|) + PutObjects(k.objects)
  }

  /** Writing a block of no bytes counts as a failure. */
  predicate Writable(k: KTest)
  {
    (forall a :: a in k.args ==> |a| > 0) && (forall o :: o in k.objects ==> |o.name| > 0 && |o.bytes| > 0)
  }

  // --- Reading -----------------------------------------------------------------------------------------

  datatype Parsed<T> = Fail | Done(value: T, rest: seq<Byte>)

  function Number(b: seq<Byte>): nat
    requires |b| == 4
  {
    BigEndian4(b[0], b[1], b[2], b[3])
  }

  function BigEndian4(a: nat, b: nat, c: nat, d: nat): nat { ((a * 0x100 + b) * 0x100 + c) * 0x100 + d }

  function Get32(b: seq<Byte>): Parsed<nat>
  {
    if |b| < 4 then Fail else Done(Number(b[..4]), b[4..])
  }

  /** Reading a block of no bytes counts as a failure too. */
  function GetBlock(b: seq<Byte>): Parsed<seq<Byte>>
  {
    match Get32(b)
    case Fail => Fail
    case Done(n, r) => if n == 0 || |r| < n then Fail else Done(r[..n], r[n..])
  }

  /** The bytes before the first zero. */
  function Terminated(s: seq<Byte>): (r: seq<Byte>)
    ensures 0 !in r && r <= s && (0 !in s ==> r == s)
  {
    if |s| == 0 || s[0] == 0 then [] else [s[0]] + Terminated(s[1..])
  }

  function GetString(b: seq<Byte>): Parsed<seq<Byte>>
  {
    match GetBlock(b)
    case Fail => Fail
    case Done(s, r) => Done(Terminated(s), r)
  }

  function GetStrings(b: seq<Byte>, n: nat): Parsed<seq<seq<Byte>>>
  {
    if n == 0 then Done([], b) else
      match GetStrings(b, n - 1)
      case Fail => Fail
      case Done(s, r) =>
        match GetString(r)
        case Fail => Fail
        case Done(x, r') => Done(s + [x], r')
  }

  function GetObject(b: seq<Byte>): Parsed<Object>
  {
    match GetString(b)
    case Fail => Fail
    case Done(name, r) =>
      match GetBlock(r)
      case Fail => Fail
      case Done(bytes, r') => Done(Object(name, bytes), r')
  }

  function GetObjects(b: seq<Byte>, n: nat): Parsed<seq<Object>>
  {
    if n == 0 then Done([], b) else
      match GetObjects(b, n - 1)
      case Fail => Fail
      case Done(s, r) =>
        match GetObject(r)
        case Fail => Fail
        case Done(x, r') => Done(s + [x], r')
  }

  /** Two words, from version 2 on. */
  function GetSym(b: seq<Byte>, version: nat): Parsed<(nat, nat)>
  {
    if version < 2 then Done((0, 0), b) else
      match Get32(b)
      case Fail => Fail
      case Done(x, r) =>
        match Get32(r)
        case Fail => Fail
        case Done(y, r') => Done((x, y), r')
  }

  function GetArgs(b: seq<Byte>): Parsed<seq<seq<Byte>>>
  {
    match Get32(b)
    case Fail => Fail
    case Done(n, r) => GetStrings(r, n)
  }

  function GetAllObjects(b: seq<Byte>): Parsed<seq<Object>>
  {
    match Get32(b)
    case Fail => Fail
    case Done(n, r) => GetObjects(r, n)
  }

  predicate Header(b: seq<Byte>)
  {
    5 <= |b| && (b[..5] == MAGIC || b[..5] == OLD_MAGIC)
  }

  function Body(b: seq<Byte>, version: nat): Parsed<KTest>
  {
    match GetArgs(b)
    case Fail => Fail
    case Done(args, r1) =>
      match GetSym(r1, version)
      case Fail => Fail
      case Done(sym, r2) =>
        match GetAllObjects(r2)
        case Fail => Fail
        case Done(objects, r3) => Done(KTest(version, args, sym.0, sym.1, objects), r3)
  }

  function Parse(b: seq<Byte>): Parsed<KTest>
  {
    if !Header(b) then Fail else
      match Get32(b[5..])
      case Fail => Fail
      case Done(version, r) => if version > VERSION then Fail else Body(r, version)
  }

  // --- More bytes after do not matter -------------------------------------------------------------------

  function More<T>(p: Parsed<T>, t: seq<Byte>): Parsed<T>
  {
    match p
    case Fail => Fail
    case Done(v, r) => Done(v, r + t)
  }

  lemma {:induction false} More32(b: seq<Byte>, t: seq<Byte>)
    requires Get32(b).Done?
    ensures Get32(b + t) == More(Get32(b), t)
  {
    hide Number;
    assert (b + t)[..4] == b[..4] && (b + t)[4..] == b[4..] + t;
  }

  lemma {:induction false} MoreBlock(b: seq<Byte>, t: seq<Byte>)
    requires GetBlock(b).Done?
    ensures GetBlock(b + t) == More(GetBlock(b), t)
  {
    hide Get32;
    More32(b, t);
    var n, r := Get32(b).value, Get32(b).rest;
    assert (r + t)[..n] == r[..n] && (r + t)[n..] == r[n..] + t;
  }

  lemma {:induction false} MoreStrings(b: seq<Byte>, n: nat, t: seq<Byte>)
    requires GetStrings(b, n).Done?
    ensures GetStrings(b + t, n) == More(GetStrings(b, n), t)
  {
    hide GetBlock;
    if n > 0 {
      MoreStrings(b, n - 1, t);
      MoreBlock(GetStrings(b, n - 1).rest, t);
    }
  }

  lemma {:induction false} MoreObject(b: seq<Byte>, t: seq<Byte>)
    requires GetObject(b).Done?
    ensures GetObject(b + t) == More(GetObject(b), t)
  {
    hide GetBlock;
    MoreBlock(b, t);
    MoreBlock(GetString(b).rest, t);
  }

  lemma {:induction false} MoreObjects(b: seq<Byte>, n: nat, t: seq<Byte>)
    requires GetObjects(b, n).Done?
    ensures GetObjects(b + t, n) == More(GetObjects(b, n), t)
  {
    hide GetObject;
    if n > 0 {
      MoreObjects(b, n - 1, t);
      MoreObject(GetObjects(b, n - 1).rest, t);
    }
  }

  lemma {:induction false} MoreSym(b: seq<Byte>, version: nat, t: seq<Byte>)
    requires GetSym(b, version).Done?
    ensures GetSym(b + t, version) == More(GetSym(b, version), t)
  {
    hide Get32;
    if version >= 2 {
      More32(b, t);
      More32(Get32(b).rest, t);
    }
  }

  lemma {:induction false} MoreBody(b: seq<Byte>, version: nat, t: seq<Byte>)
    requires Body(b, version).Done?
    ensures Body(b + t, version) == More(Body(b, version), t)
  {
    hide Get32, GetStrings, GetObjects, GetSym;
    More32(b, t);
    MoreStrings(Get32(b).rest, Get32(b).value, t);
    var r1 := GetArgs(b).rest;
    MoreSym(r1, version, t);
    var r2 := GetSym(r1, version).rest;
    More32(r2, t);
    MoreObjects(Get32(r2).rest, Get32(r2).value, t);
  }

  /** Whatever is read from some bytes is read from more of them. */
  lemma {:induction false} MoreParse(b: seq<Byte>, t: seq<Byte>)
    requires Parse(b).Done?
    ensures Parse(b + t) == More(Parse(b), t)
  {
    hide Get32, Body;
    assert (b + t)[..5] == b[..5] && (b + t)[5..] == b[5..] + t;
    More32(b[5..], t);
    MoreBody(Get32(b[5..]).rest, Get32(b[5..]).value, t);
  }

  // --- The round trip -----------------------------------------------------------------------------------------

  lemma {:induction false} Get32Put32(n: nat, t: seq<Byte>)
    requires Fits(n)
    ensures Get32(Put32(n) + t) == Done(n, t)
  {
    var p := Put32(n);
    assert (p + t)[..4] == p && (p + t)[4..] == t;
    FourDigits(n);
  }

  lemma {:induction false} FourDigits(n: nat)
    requires Fits(n)
    ensures Number(Put32(n)) == n
  {
    var a := n / 0x100;
    var b := a / 0x100;
    var c := b / 0x100;
    assert n == 0x100 * a + n % 0x100 && a == 0x100 * b + a % 0x100 && b == 0x100 * c + b % 0x100;
    QuotientIs(n, 0x1_0000, b, 0x100 * (a % 0x100) + n % 0x100);
    QuotientIs(n, 0x100_0000, c, 0x1_0000 * (b % 0x100) + 0x100 * (a % 0x100) + n % 0x100);
  }

  lemma {:induction false} GetBlockPut(s: seq<Byte>, t: seq<Byte>)
    requires Fits(|s|) && |s| > 0
    ensures GetBlock(PutString(s) + t) == Done(s, t)
  {
    hide Get32, Put32;
    Get32Put32(|s|, s + t);
    assert PutString(s) + t == Put32(|s|) + (s + t);
    assert (s + t)[..|s|] == s && (s + t)[|s|..] == t;
  }

  lemma {:induction false} Reassociate(a: seq<Byte>, b: seq<Byte>, c: seq<Byte>)
    ensures (a + b) + c == a + (b + c)
  {
  }

  lemma {:induction false} GetStringsPut(s: seq<seq<Byte>>, t: seq<Byte>)
    requires forall x :: x in s ==> CString(x) && |x| > 0
    ensures GetStrings(PutStrings(s) + t, |s|) == Done(s, t)
  {
    hide GetBlock, PutString;
    if |s| == 0 {
      assert PutStrings(s) + t == t;
    } else {
      var s', x := s[..|s| - 1], s[|s| - 1];
      assert x in s && s == s' + [x];
      assert PutStrings(s) == PutStrings(s') + PutString(x);
      Reassociate(PutStrings(s'), PutString(x), t);
      GetStringsPut(s', PutString(x) + t);
      GetBlockPut(x, t);
    }
  }

  lemma {:induction false} GetObjectPut(o: Object, t: seq<Byte>)
    requires CString(o.name) && Fits(|o.bytes|) && |o.name| > 0 && |o.bytes| > 0
    ensures GetObject(PutObject(o) + t) == Done(o, t)
  {
    hide GetBlock, PutString;
    assert PutObject(o) + t == PutString(o.name) + (PutString(o.bytes) + t);
    GetBlockPut(o.name, PutString(o.bytes) + t);
    GetBlockPut(o.bytes, t);
  }

  lemma {:induction false} GetObjectsPut(s: seq<Object>, t: seq<Byte>)
    requires forall o :: o in s ==> CString(o.name) && Fits(|o.bytes|) && |o.name| > 0 && |o.bytes| > 0
    ensures GetObjects(PutObjects(s) + t, |s|) == Done(s, t)
  {
    hide GetObject, PutObject;
    if |s| == 0 {
      assert PutObjects(s) + t == t;
    } else {
      var s', x := s[..|s| - 1], s[|s| - 1];
      assert x in s && s == s' + [x];
      assert PutObjects(s) == PutObjects(s') + PutObject(x);
      Reassociate(PutObjects(s'), PutObject(x), t);
      GetObjectsPut(s', PutObject(x) + t);
      GetObjectPut(x, t);
    }
  }

  /** A file of an older version or with the older header; before version 2 it has no symbolic arguments. */
  function EncodeAs(magic: seq<Byte>, version: nat, k: KTest): seq<Byte>
  {
    magic + Put32(version) + Put32(|k.args|) + PutStrings(k.args)
      + (if version < 2 then [] else Put32(k.symArgvs) + Put32(k.symArgvLen)) + Put32(|k.objects|) + PutObjects(k.objects)
  }

  /** What such a file says. */
  function As(version: nat, k: KTest): KTest
  {
    if version < 2 then k.(version := version, symArgvs := 0, symArgvLen := 0) else k.(version := version)
  }

  function Tail3(k: KTest): seq<Byte> { Put32(|k.objects|) + PutObjects(k.objects) }

  function Tail2(k: KTest, version: nat): seq<Byte>
  {
    if version < 2 then Tail3(k) else Put32(k.symArgvs) + (Put32(k.symArgvLen) + Tail3(k))
  }

  function Tail1(k: KTest, version: nat): seq<Byte> { Put32(|k.args|) + (PutStrings(k.args) + Tail2(k, version)) }

  lemma {:induction false} BodyPut(k: KTest, version: nat, t: seq<Byte>)
    requires Storable(k) && Writable(k)
    ensures Body(Tail1(k, version) + t, version) == Done(As(version, k), t)
  {
    hide Get32, Put32, GetStrings, PutStrings, GetObjects, PutObjects;
    var t3, t2 := Tail3(k) + t, Tail2(k, version) + t;
    assert Tail1(k, version) + t == Put32(|k.args|) + (PutStrings(k.args) + t2);
    Get32Put32(|k.args|, PutStrings(k.args) + t2);
    GetStringsPut(k.args, t2);
    if version >= 2 {
      assert t2 == Put32(k.symArgvs) + (Put32(k.symArgvLen) + t3);
      Get32Put32(k.symArgvs, Put32(k.symArgvLen) + t3);
      Get32Put32(k.symArgvLen, t3);
    }
    assert t3 == Put32(|k.objects|) + (PutObjects(k.objects) + t);
    Get32Put32(|k.objects|, PutObjects(k.objects) + t);
    GetObjectsPut(k.objects, t);
  }

  /** Files with either header and of any version up to the current one are read; later versions are not. */
  lemma {:induction false} Versions(magic: seq<Byte>, version: nat, k: KTest, t: seq<Byte>)
    requires Storable(k) && Writable(k) && (magic == Ascii("KTEST") || magic == Ascii("BOUT\n")) && Fits(version)
    ensures Parse(EncodeAs(magic, version, k) + t) == if version <= 3 then Done(As(version, k), t) else Fail
  {
    hide Get32, Put32, Body, EncodeAs, Tail1, As, Ascii, Header;
    var r := Put32(version) + (Tail1(k, version) + t);
    SplitAs(magic, version, k, t);
    Opened(magic, r);
    Get32Put32(version, Tail1(k, version) + t);
    BodyPut(k, version, t);
  }

  lemma {:induction false} SplitAs(magic: seq<Byte>, version: nat, k: KTest, t: seq<Byte>)
    ensures EncodeAs(magic, version, k) + t == magic + (Put32(version) + (Tail1(k, version) + t))
  {
    hide Put32, PutStrings, PutObjects;
  }

  lemma {:induction false} Opened(magic: seq<Byte>, r: seq<Byte>)
    requires magic == Ascii("KTEST") || magic == Ascii("BOUT\n")
    ensures |magic| == 5 && Header(magic + r) && (magic + r)[5..] == r
  {
    Headers();
    hide Ascii;
    assert |magic| == 5;
    assert (magic + r)[..5] == magic && (magic + r)[5..] == r;
  }

  /** No other header is. */
  lemma {:induction false} OtherHeaders(b: seq<Byte>)
    requires |b| < 5 || (b[..5] != Ascii("KTEST") && b[..5] != Ascii("BOUT\n"))
    ensures Parse(b).Fail?
  {
    Headers();
  }

  /** What the writer produces, followed by anything, is read back as the same record. */
  lemma {:induction false} RoundTrip(k: KTest, t: seq<Byte>)
    requires Storable(k) && Writable(k)
    ensures Encode(k) == EncodeAs(Ascii("KTEST"), 3, k) && Parse(Encode(k) + t) == Done(k.(version := 3), t)
  {
    hide Parse, Put32, PutStrings, PutObjects;
    Headers();
    assert Encode(k) == EncodeAs(MAGIC, VERSION, k);
    Versions(MAGIC, VERSION, k, t);
  }

  /** Every strict prefix of what the writer produces is rejected. */
  lemma {:induction false} PrefixRejected(k: KTest, p: seq<Byte>)
    requires Storable(k) && Writable(k) && p < Encode(k)
    ensures Parse(p).Fail?
  {
    hide Parse, Encode;
    if Parse(p).Done? {
      var t := Encode(k)[|p|..];
      assert Encode(k) == p + t && Encode(k) + [] == Encode(k);
      MoreParse(p, t);
      RoundTrip(k, []);
    }
  }
}
