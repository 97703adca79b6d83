/** The stubs' and the handler's work on buffers: each `memcpy` at its computed
    offset, proved to produce and to read exactly the bytes of the wire protocol. */
module Marshal {
  import opened CData
  import opened Calls
  import opened Routing
  import opened Wire

  /** A buffer being filled front to back, with what has been written so far. Since
      a copy may only start where the last one ended, a full buffer has had every
      byte written exactly once, and none outside it. */
  class Buffer {
    const data: array<byte>
    ghost var written: bytes

    ghost predicate Valid()
      reads this, data
    {
      |written| <= data.Length && data[..|written|] == written
    }

    /** The buffer is full, and holds `b`. */
    ghost predicate Holds(b: bytes)
      reads this, data
    {
      |written| == data.Length && data[..] == b
    }

    constructor (size: nat)
      ensures fresh(this) && fresh(data) && Valid() && data.Length == size && written == []
    {
      data := new byte[size];
      written := [];
    }

    /** memcpy(data + offset, src, |src|) */
    method Copy(offset: nat, src: bytes)
      requires Valid() && offset == |written| && offset + |src| <= data.Length
      modifies this`written, data
      ensures Valid() && written == old(written) + src
    {
      var i := 0;
      while i < |src|
        invariant 0 <= i <= |src| && written == old(written)
        invariant data[..offset] == written
        invariant data[offset..offset + i] == src[..i]
      {
        data[offset + i] := src[i];
        i := i + 1;
        assert data[offset..offset + i] == data[offset..offset + i - 1] + [src[i - 1]];
      }
      assert data[..offset + |src|] == data[..offset] + data[offset..offset + |src|];
      written := written + src;
    }

    lemma Complete(b: bytes)
      requires Valid() && |written| == data.Length && written == b
      ensures Holds(b)
    {
      assert data[..|written|] == data[..];
    }
  }

  /** What a stub copies from behind a path's first two bytes: `size` bytes of the C
      string, its NUL included. */
  function FromPath(path: bytes, size: int): (b: bytes)
    requires |path| >= 1 && size == |path| - 1
    ensures b == if |path| == 1 then [] else path[2..] + [0]
  {
    (path + [0])[2..2 + size]
  }

  /** The part every stub starts with: payload size, then code. */
  method Begin(payloadSize: nat, code: byte) returns (buf: Buffer)
    requires payloadSize > 0
    ensures fresh(buf) && fresh(buf.data) && buf.Valid() && buf.data.Length == 8 + payloadSize
    ensures buf.written == U64(payloadSize) + [code]
  {
    buf := new Buffer(8 + payloadSize);
    buf.Copy(0, U64(payloadSize));
    buf.Copy(8, [code]);
  }

  /** The fields, one behind the other, are the request. */
  lemma Fields(size: bytes, code: byte, a: bytes, b: bytes, c: bytes)
    ensures size + [code] + a == size + ([code] + a)
    ensures size + [code] + a + b == size + ([code] + (a + b))
    ensures size + [code] + a + b + c == size + ([code] + (a + b + c))
  {
  }

  // ---- the twelve stubs ----

  method MarshalOpen(path: bytes, oflag: int, mode: nat) returns (buf: Buffer, ghost c: Call)
    requires HasPrefix(path)
    requires Encodable(Open(path[2..], oflag, if oflag == O_CREAT then Some(mode) else None))
    ensures c == Open(path[2..], oflag, if oflag == O_CREAT then Some(mode) else None)
    ensures buf.Holds(Request(c))
  {
    c := Open(path[2..], oflag, if oflag == O_CREAT then Some(mode) else None);
    var pathSize := |path| - 1;
    var payloadSize := if oflag == O_CREAT then 1 + pathSize + 4 + 4 else 1 + pathSize + 4;
    buf := Begin(payloadSize, 0);
    buf.Copy(8 + 1, FromPath(path, pathSize));
    buf.Copy(8 + 1 + pathSize, I32(oflag));
    if oflag == O_CREAT {
      buf.Copy(8 + 1 + pathSize + 4, U32(mode));
    }
    Fields(U64(payloadSize), 0, FromPath(path, pathSize), I32(oflag), if oflag == O_CREAT then U32(mode) else []);
    assert Arguments(c) == FromPath(path, pathSize) + I32(oflag) + (if oflag == O_CREAT then U32(mode) else []);
    buf.Complete(Request(c));
  }

  method MarshalClose(fildes: int) returns (buf: Buffer)
    requires IsInt32(fildes)
    ensures buf.Holds(Request(Close(fildes)))
  {
    buf := Begin(1 + 4, 1);
    buf.Copy(8 + 1, I32(fildes));
    Fields(U64(5), 1, I32(fildes), [], []);
    buf.Complete(Request(Close(fildes)));
  }

  method MarshalRead(fildes: int, nbyte: nat) returns (buf: Buffer)
    requires Encodable(Read(fildes, nbyte))
    ensures buf.Holds(Request(Read(fildes, nbyte)))
  {
    buf := Begin(1 + 4 + 8, 2);
    buf.Copy(8 + 1, I32(fildes));
    buf.Copy(8 + 1 + 4, U64(nbyte));
    Fields(U64(13), 2, I32(fildes), U64(nbyte), []);
    buf.Complete(Request(Read(fildes, nbyte)));
  }

  /** The count goes behind the data it counts. */
  method MarshalWrite(fildes: int, data: bytes) returns (buf: Buffer)
    requires Encodable(Write(fildes, data))
    ensures buf.Holds(Request(Write(fildes, data)))
  {
    var nbyte := |data|;
    buf := Begin(1 + 4 + nbyte + 8, 3);
    buf.Copy(8 + 1, I32(fildes));
    buf.Copy(8 + 1 + 4, data);
    buf.Copy(8 + 1 + 4 + nbyte, U64(nbyte));
    Fields(U64(13 + nbyte), 3, I32(fildes), data, U64(nbyte));
    buf.Complete(Request(Write(fildes, data)));
  }

  method MarshalLseek(fildes: int, offset: int, whence: int) returns (buf: Buffer)
    requires Encodable(Lseek(fildes, offset, whence))
    ensures buf.Holds(Request(Lseek(fildes, offset, whence)))
  {
    buf := Begin(1 + 4 + 8 + 4, 4);
    buf.Copy(8 + 1, I32(fildes));
    buf.Copy(8 + 1 + 4, I64(offset));
    buf.Copy(8 + 1 + 4 + 8, I32(whence));
    Fields(U64(17), 4, I32(fildes), I64(offset), I32(whence));
    buf.Complete(Request(Lseek(fildes, offset, whence)));
  }

  method MarshalTruncate(path: bytes, length: int) returns (buf: Buffer)
    requires HasPrefix(path) && Encodable(Truncate(path[2..], length))
    ensures buf.Holds(Request(Truncate(path[2..], length)))
  {
    var pathSize := |path| - 1;
    buf := Begin(1 + pathSize + 8, 5);
    buf.Copy(8 + 1, FromPath(path, pathSize));
    buf.Copy(8 + 1 + pathSize, I64(length));
    Fields(U64(1 + pathSize + 8), 5, FromPath(path, pathSize), I64(length), []);
    buf.Complete(Request(Truncate(path[2..], length)));
  }

  method MarshalFtruncate(fildes: int, length: int) returns (buf: Buffer)
    requires Encodable(Ftruncate(fildes, length))
    ensures buf.Holds(Request(Ftruncate(fildes, length)))
  {
    buf := Begin(1 + 4 + 8, 6);
    buf.Copy(8 + 1, I32(fildes));
    buf.Copy(8 + 1 + 4, I64(length));
    Fields(U64(13), 6, I32(fildes), I64(length), []);
    buf.Complete(Request(Ftruncate(fildes, length)));
  }

  method MarshalStat(path: bytes) returns (buf: Buffer)
    requires HasPrefix(path) && Encodable(Stat(path[2..]))
    ensures buf.Holds(Request(Stat(path[2..])))
  {
    var pathSize := |path| - 1;
    buf := Begin(1 + pathSize, 7);
    buf.Copy(8 + 1, FromPath(path, pathSize));
    Fields(U64(1 + pathSize), 7, FromPath(path, pathSize), [], []);
    buf.Complete(Request(Stat(path[2..])));
  }

  method MarshalFstat(fildes: int) returns (buf: Buffer)
    requires IsInt32(fildes)
    ensures buf.Holds(Request(Fstat(fildes)))
  {
    buf := Begin(1 + 4, 8);
    buf.Copy(8 + 1, I32(fildes));
    Fields(U64(5), 8, I32(fildes), [], []);
    buf.Complete(Request(Fstat(fildes)));
  }

  method MarshalFsync(fildes: int) returns (buf: Buffer)
    requires IsInt32(fildes)
    ensures buf.Holds(Request(Fsync(fildes)))
  {
    buf := Begin(1 + 4, 9);
    buf.Copy(8 + 1, I32(fildes));
    Fields(U64(5), 9, I32(fildes), [], []);
    buf.Complete(Request(Fsync(fildes)));
  }

  /** `rename` tests the old path's prefix only, and takes two bytes off both. The
      sizes are `size_t`; None is for a buffer that is too small for the copies. */
  method MarshalRename(source: bytes, target: bytes) returns (r: Option<Buffer>)
    requires RenameOk(source, target)
    ensures r.None? <==> target == []
    ensures r.Some? ==>
              r.value.Holds(U64(|RenamePayload(source, target)|) + RenamePayload(source, target))
    ensures HasPrefix(target) ==>
              r.Some? && r.value.Holds(Request(Rename(source[2..], target[2..])))
  {
    var oldSize, newSize := SizeSub(|source|, 1), SizeSub(|target|, 1);
    var payloadSize := SizeAdd(SizeAdd(1, oldSize), newSize);
    RenameFitsIff(source, target);
    var buf := Begin(payloadSize, 10);
    if 8 + 1 + oldSize + newSize > 8 + payloadSize {
      return None;
    }
    ghost var p := RenamePayload(source, target);
    buf.Copy(8 + 1, FromPath(source, oldSize));
    buf.Copy(8 + 1 + oldSize, FromPath(target, newSize));
    Fields(U64(payloadSize), 10, FromPath(source, oldSize), FromPath(target, newSize), []);
    buf.Complete(U64(|p|) + p);
    if HasPrefix(target) {
      RenameIsRequest(source, target);
    }
    return Some(buf);
  }

  /** C strings that fit in memory together, the first of them remote. */
  predicate RenameOk(source: bytes, target: bytes) {
    HasPrefix(source) && NulFree(source) && NulFree(target) && 8 + |source| + |target| < TWO64
  }

  /** The copies end inside the buffer. */
  predicate RenameFits(source: bytes, target: bytes) {
    var oldSize, newSize := SizeSub(|source|, 1), SizeSub(|target|, 1);
    8 + 1 + oldSize + newSize <= 8 + SizeAdd(SizeAdd(1, oldSize), newSize)
  }

  lemma RenameFitsIff(source: bytes, target: bytes)
    requires RenameOk(source, target)
    ensures RenameFits(source, target) <==> target != []
    ensures SizeSub(|source|, 1) == |source| - 1
    ensures SizeSub(|target|, 1) == if target == [] then TWO64 - 1 else |target| - 1
    ensures var size := SizeAdd(SizeAdd(1, SizeSub(|source|, 1)), SizeSub(|target|, 1));
            size == if target == [] then |source| - 1 else |RenamePayload(source, target)|
  {
  }

  /** What `rename` sends. Of a one-byte target there is nothing behind two bytes,
      not even its NUL. */
  function RenamePayload(source: bytes, target: bytes): (p: bytes)
    requires HasPrefix(source) && target != []
    ensures |p| == |source| + |target| - 1
  {
    [10] + (FromPath(source, |source| - 1) + FromPath(target, |target| - 1))
  }

  lemma RenameIsRequest(source: bytes, target: bytes)
    requires RenameOk(source, target) && HasPrefix(target)
    ensures U64(|RenamePayload(source, target)|) + RenamePayload(source, target)
            == Request(Rename(source[2..], target[2..]))
  {
    assert Arguments(Rename(source[2..], target[2..]))
        == FromPath(source, |source| - 1) + FromPath(target, |target| - 1);
  }

  /** The handler is handed the call the program made, both prefixes taken off. */
  predicate RenameArrives(source: bytes, target: bytes)
    requires HasPrefix(source)
  {
    && target != [] && RenameFits(source, target)
    && var d := Decode(RenamePayload(source, target));
       d.Ok? && d.call.Rename? && [SLASH, SLASH] + d.call.source == source && [SLASH, SLASH] + d.call.target == target
  }

  /** RENAME. For any two paths the stub takes as a remote rename, the handler gets
      the call the program made if and only if the target has the prefix too. If it
      has not: an empty target overruns the stub's buffer, the sizes having wrapped;
      a one-byte target makes the handler read past the payload; and any other loses
      its first two bytes. */
  lemma RenameTargetKeptIff(source: bytes, target: bytes)
    requires RenameOk(source, target)
    ensures RenameArrives(source, target) <==> HasPrefix(target)
    ensures |target| == 0 ==> !RenameFits(source, target)
    ensures |target| == 1 ==> Decode(RenamePayload(source, target)) == OutOfBounds
    ensures |target| >= 2 ==> Decode(RenamePayload(source, target)) == Ok(Rename(source[2..], target[2..]))
  {
    RenameFitsIff(source, target);
    if |target| == 1 {
      OneString(source[2..]);
      assert RenamePayload(source, target) == [10] + (source[2..] + [0]);
    } else if |target| >= 2 {
      RenameDecodesTo(source, target);
      PrefixKeptIff(source);
      PrefixKeptIff(target);
    }
  }

  lemma RenameDecodesTo(source: bytes, target: bytes)
    requires RenameOk(source, target) && |target| >= 2
    ensures Decode(RenamePayload(source, target)) == Ok(Rename(source[2..], target[2..]))
  {
    TwoStrings(10, source[2..], target[2..]);
    assert RenamePayload(source, target) == [10] + (source[2..] + [0] + target[2..] + [0]);
  }

  lemma PrefixKeptIff(path: bytes)
    requires |path| >= 2
    ensures [SLASH, SLASH] + path[2..] == path <==> HasPrefix(path)
  {
    assert path == [path[0], path[1]] + path[2..];
  }

  lemma OneString(s: bytes)
    requires NulFree(s)
    ensures Decode([10] + (s + [0])) == OutOfBounds
  {
    var p := [10] + (s + [0]);
    assert p == [10] + s + [0] + [];
    FirstNulFinds([10], s, []);
  }

  method MarshalUnlink(path: bytes) returns (buf: Buffer)
    requires HasPrefix(path) && Encodable(Unlink(path[2..]))
    ensures buf.Holds(Request(Unlink(path[2..])))
  {
    var pathSize := |path| - 1;
    buf := Begin(1 + pathSize, 11);
    buf.Copy(8 + 1, FromPath(path, pathSize));
    Fields(U64(1 + pathSize), 11, FromPath(path, pathSize), [], []);
    buf.Complete(Request(Unlink(path[2..])));
  }
}
