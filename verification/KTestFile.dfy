/** The reader and the writer of KTest.cpp on an open file. */
module KTestFile {
  import opened KTestFormat
  import opened Options
  import opened Words

  class File {
    var bytes: seq<Byte>
    var position: nat

    constructor (contents: seq<Byte>)
      ensures bytes == contents && position == 0
    {
      bytes := contents;
      position := 0;
    }

    /** What is still to be read. */
    function Rest(): seq<Byte>
      requires position <= |bytes|
      reads this
    {
      bytes[position..]
    }

    /** fread(buffer, n, 1, f): one item of `n` bytes, or a failure that has used up the file. */
    method Read(n: nat) returns (item: Option<seq<Byte>>)
      requires position <= |bytes|
      modifies this`position
      ensures position <= |bytes|
      ensures item.Some? <==> 0 < n <= |old(Rest())|
      ensures item.Some? ==> item.value == old(Rest())[..n] && Rest() == old(Rest())[n..]
      ensures item.None? ==> Rest() == if n == 0 then old(Rest()) else []
    {
      if n == 0 {
        return None;
      }
      if |bytes| - position < n {
        position := |bytes|;
        return None;
      }
      item := Some(bytes[position..position + n]);
      position := position + n;
    }

    /** fwrite(buffer, n, 1, f) at the end of the file. */
    method Write(item: seq<Byte>) returns (ok: bool)
      modifies this`bytes
      ensures ok <==> |item| > 0
      ensures bytes == old(bytes) + item
    {
      bytes := bytes + item;
      ok := |item| > 0;
    }

    method Write32(n: nat)
      requires Fits(n)
      modifies this`bytes
      ensures bytes == old(bytes) + Put32(n)
    {
      var ok := Write(Put32(n));
    }

    method Read32() returns (n: Option<nat>)
      requires position <= |bytes|
      modifies this`position
      ensures position <= |bytes| && Reads(Get32(old(Rest())), n, Rest())
    {
      hide Number;
      var data := Read(4);
      if data.None? {
        return None;
      }
      n := Some(Number(data.value));
    }

    method ReadBlock() returns (s: Option<seq<Byte>>)
      requires position <= |bytes|
      modifies this`position
      ensures position <= |bytes| && Reads(GetBlock(old(Rest())), s, Rest())
    {
      hide Get32;
      var n := Read32();
      if n.None? {
        return None;
      }
      s := Read(n.value);
    }

    /** read_string */
    method ReadString() returns (s: Option<seq<Byte>>)
      requires position <= |bytes|
      modifies this`position
      ensures position <= |bytes| && Reads(GetString(old(Rest())), s, Rest())
    {
      hide GetBlock;
      s := ReadBlock();
      if s.Some? {
        s := Some(Terminated(s.value));
      }
    }

    method ReadArgs() returns (args: Option<seq<seq<Byte>>>)
      requires position <= |bytes|
      modifies this`position
      ensures position <= |bytes| && Reads(GetArgs(old(Rest())), args, Rest())
    {
      hide Get32, GetString;
      var n := Read32();
      if n.None? {
        return None;
      }
      ghost var b := Rest();
      var all: seq<seq<Byte>> := [];
      for i := 0 to n.value
        invariant position <= |bytes| && GetStrings(b, i) == Done(all, Rest())
      {
        var s := ReadString();
        if s.None? {
          StringsStop(b, i + 1, n.value);
          return None;
        }
        all := all + [s.value];
      }
      args := Some(all);
    }

    method ReadObjects() returns (objects: Option<seq<Object>>)
      requires position <= |bytes|
      modifies this`position
      ensures position <= |bytes| && Reads(GetAllObjects(old(Rest())), objects, Rest())
    {
      hide Get32, GetString, GetBlock;
      var n := Read32();
      if n.None? {
        return None;
      }
      ghost var b := Rest();
      var all: seq<Object> := [];
      for i := 0 to n.value
        invariant position <= |bytes| && GetObjects(b, i) == Done(all, Rest())
      {
        var name := ReadString();
        if name.None? {
          ObjectsStop(b, i + 1, n.value);
          return None;
        }
        var data := ReadBlock();
        if data.None? {
          ObjectsStop(b, i + 1, n.value);
          return None;
        }
        all := all + [Object(name.value, data.value)];
      }
      objects := Some(all);
    }

    /** kTest_fromFile on a file just opened. */
    method FromFile() returns (k: Option<KTest>)
      requires position <= |bytes|
      modifies this`position
      ensures position <= |bytes| && Reads(Parse(old(Rest())), k, Rest())
    {
      hide Get32, GetArgs, GetAllObjects;
      var header := Read(5);
      if header.None? || (header.value != MAGIC && header.value != OLD_MAGIC) {
        return None;
      }
      var version := Read32();
      if version.None? || version.value > VERSION {
        return None;
      }
      var args := ReadArgs();
      if args.None? {
        return None;
      }
      var symArgvs, symArgvLen := Some(0), Some(0);
      if version.value >= 2 {
        symArgvs := Read32();
        if symArgvs.None? {
          return None;
        }
        symArgvLen := Read32();
        if symArgvLen.None? {
          return None;
        }
      }
      var objects := ReadObjects();
      if objects.None? {
        return None;
      }
      k := Some(KTest(version.value, args.value, symArgvs.value, symArgvLen.value, objects.value));
    }

    /** write_string, and the length and bytes of an object. */
    method WriteBlock(s: seq<Byte>) returns (ok: bool)
      requires Fits(|s|)
      modifies this`bytes
      ensures ok <==> |s| > 0
      ensures bytes == old(bytes) + PutString(s)
    {
      hide Put32;
      Write32(|s|);
      ok := Write(s);
    }

    method WriteArgs(args: seq<seq<Byte>>) returns (ok: bool)
      requires Fits(|args|) && forall a :: a in args ==> CString(a)
      modifies this`bytes
      ensures ok <==> forall a :: a in args ==> |a| > 0
      ensures ok ==> bytes == old(bytes) + Put32(|args|) + PutStrings(args)
    {
      hide Put32, PutString;
      Write32(|args|);
      ghost var b := bytes;
      for i := 0 to |args|
        invariant bytes == b + PutStrings(args[..i])
        invariant forall a :: a in args[..i] ==> |a| > 0
      {
        assert args[..i + 1] == args[..i] + [args[i]] && args[i] in args;
        ok := WriteBlock(args[i]);
        if !ok {
          return false;
        }
        assert args[..i + 1][..i] == args[..i];
      }
      assert args[..|args|] == args;
      ok := true;
    }

    method WriteObjects(objects: seq<Object>) returns (ok: bool)
      requires Fits(|objects|) && forall o :: o in objects ==> CString(o.name) && Fits(|o.bytes|)
      modifies this`bytes
      ensures ok <==> forall o :: o in objects ==> |o.name| > 0 && |o.bytes| > 0
      ensures ok ==> bytes == old(bytes) + Put32(|objects|) + PutObjects(objects)
    {
      hide Put32, PutString;
      Write32(|objects|);
      ghost var b := bytes;
      for i := 0 to |objects|
        invariant bytes == b + PutObjects(objects[..i])
        invariant forall o :: o in objects[..i] ==> |o.name| > 0 && |o.bytes| > 0
      {
        assert objects[..i + 1] == objects[..i] + [objects[i]] && objects[i] in objects;
        ok := WriteBlock(objects[i].name);
        if !ok {
          return false;
        }
        ok := WriteBlock(objects[i].bytes);
        if !ok {
          return false;
        }
        assert objects[..i + 1][..i] == objects[..i];
      }
      assert objects[..|objects|] == objects;
      ok := true;
    }

    /** kTest_toFile on an empty file just opened. */
    method ToFile(k: KTest) returns (ok: bool)
      requires Storable(k) && bytes == []
      modifies this`bytes
      ensures ok <==> Writable(k)
      ensures ok ==> bytes == Encode(k)
    {
      hide Put32, PutStrings, PutObjects;
      ok := Write(MAGIC);
      Write32(VERSION);
      ok := WriteArgs(k.args);
      if !ok {
        return false;
      }
      Write32(k.symArgvs);
      Write32(k.symArgvLen);
      ok := WriteObjects(k.objects);
    }
  }

  /** A record saved and loaded: saving fails exactly when some string or object is empty, and otherwise the same
      record comes back, with the current version. */
  method SaveLoad(k: KTest) returns (ok: bool, back: Option<KTest>)
    requires Storable(k)
    ensures ok <==> Writable(k)
    ensures ok ==> back == Some(k.(version := VERSION))
  {
    hide Storable, Writable, Parse, Encode;
    var f := new File([]);
    ok := f.ToFile(k);
    if !ok {
      return false, None;
    }
    RoundTrip(k, []);
    assert f.bytes + [] == f.bytes;
    back := f.FromFile();
  }

  /** A file cut short anywhere is not loaded. */
  method LoadCut(k: KTest, length: nat) returns (back: Option<KTest>)
    requires Storable(k) && Writable(k) && length < |Encode(k)|
    ensures back == None
  {
    hide Storable, Writable, Parse, Encode;
    var f := new File([]);
    var ok := f.ToFile(k);
    var cut := f.bytes[..length];
    PrefixRejected(k, cut);
    f := new File(cut);
    back := f.FromFile();
  }

  /** A reading method does what the parser does. */
  ghost predicate Reads<T>(p: Parsed<T>, got: Option<T>, rest: seq<Byte>)
  {
    match p
    case Fail => got == None
    case Done(v, r) => got == Some(v) && rest == r
  }

  lemma {:induction false} StringsStop(b: seq<Byte>, i: nat, n: nat)
    requires i <= n && GetStrings(b, i).Fail?
    ensures GetStrings(b, n).Fail?
  {
    hide GetString;
    if i < n {
      StringsStop(b, i, n - 1);
    }
  }

  lemma {:induction false} ObjectsStop(b: seq<Byte>, i: nat, n: nat)
    requires i <= n && GetObjects(b, i).Fail?
    ensures GetObjects(b, n).Fail?
  {
    hide GetObject;
    if i < n {
      ObjectsStop(b, i, n - 1);
    }
  }
}
