/** The wire protocol as functions: the bytes a stub sends for a call, what the
    server's handler makes of a payload, and the unframed reply. */
module Wire {
  import opened CData
  import opened Calls

  function Code(c: Call): (b: byte)
    ensures b < 12
  {
    match c
    case Open(_, _, _) => 0
    case Close(_) => 1
    case Read(_, _) => 2
    case Write(_, _) => 3
    case Lseek(_, _, _) => 4
    case Truncate(_, _) => 5
    case Ftruncate(_, _) => 6
    case Stat(_) => 7
    case Fstat(_) => 8
    case Fsync(_) => 9
    case Rename(_, _) => 10
    case Unlink(_) => 11
  }

  /** A call a stub can marshal: in range, and with O_CREAT the mode is there to copy. */
  predicate Sendable(c: Call) {
    InRange(c) && (c.Open? && c.flags == O_CREAT ==> c.mode.Some?)
  }

  function Arguments(c: Call): (b: bytes)
    requires Sendable(c)
  {
    match c
    case Open(path, flags, mode) =>
      path + [0] + I32(flags) + (if flags == O_CREAT then U32(mode.value) else [])
    case Close(fd) => I32(fd)
    case Read(fd, nbyte) => I32(fd) + U64(nbyte)
    case Write(fd, data) => I32(fd) + data + U64(|data|)
    case Lseek(fd, offset, whence) => I32(fd) + I64(offset) + I32(whence)
    case Truncate(path, length) => path + [0] + I64(length)
    case Ftruncate(fd, length) => I32(fd) + I64(length)
    case Stat(path) => path + [0]
    case Fstat(fd) => I32(fd)
    case Fsync(fd) => I32(fd)
    case Rename(source, target) => source + [0] + target + [0]
    case Unlink(path) => path + [0]
  }

  function Payload(c: Call): (b: bytes)
    requires Sendable(c)
    ensures |b| > 0 && b[0] == Code(c)
  {
    [Code(c)] + Arguments(c)
  }

  /** The whole request fits in memory, so `size_t` sums do not wrap. */
  predicate Encodable(c: Call) {
    Sendable(c) && 8 + |Payload(c)| < TWO64
  }

  function Request(c: Call): (b: bytes)
    requires Encodable(c)
  {
    U64(|Payload(c)|) + Payload(c)
  }

  /** What the handler sees: a call, a code it does not know, or a field it would
      read past the end of the payload. */
  datatype Decoded = Ok(call: Call) | Unsupported | OutOfBounds

  function Decode(p: bytes): (d: Decoded) {
    if |p| == 0 then OutOfBounds
    else match p[0]
      case 0 => DecodeOpen(p)
      case 1 => if |p| < 5 then OutOfBounds else Ok(Close(ToI32(p[1..5])))
      case 2 => if |p| < 13 then OutOfBounds else Ok(Read(ToI32(p[1..5]), FromLittle(p[5..13])))
      case 3 => DecodeWrite(p)
      case 4 =>
        if |p| < 17 then OutOfBounds
        else Ok(Lseek(ToI32(p[1..5]), ToI64(p[5..13]), ToI32(p[13..17])))
      case 5 => DecodeTruncate(p)
      case 6 => if |p| < 13 then OutOfBounds else Ok(Ftruncate(ToI32(p[1..5]), ToI64(p[5..13])))
      case 7 => DecodePath(p, (s: bytes) => Stat(s))
      case 8 => if |p| < 5 then OutOfBounds else Ok(Fstat(ToI32(p[1..5])))
      case 9 => if |p| < 5 then OutOfBounds else Ok(Fsync(ToI32(p[1..5])))
      case 10 => DecodeRename(p)
      case 11 => DecodePath(p, (s: bytes) => Unlink(s))
      case _ => Unsupported
  }

  function DecodePath(p: bytes, make: bytes -> Call): (d: Decoded)
    requires |p| > 0
  {
    var nul := FirstNul(p, 1);
    if nul == |p| then OutOfBounds else Ok(make(p[1..nul]))
  }

  function DecodeOpen(p: bytes): (d: Decoded)
    requires |p| > 0
  {
    var nul := FirstNul(p, 1);
    if nul + 5 > |p| then OutOfBounds
    else
      var flags := ToI32(p[nul + 1..nul + 5]);
      if flags != O_CREAT then Ok(Open(p[1..nul], flags, None))
      else if nul + 9 > |p| then OutOfBounds
      else Ok(Open(p[1..nul], flags, Some(FromLittle(p[nul + 5..nul + 9]))))
  }

  function DecodeTruncate(p: bytes): (d: Decoded)
    requires |p| > 0
  {
    var nul := FirstNul(p, 1);
    if nul + 9 > |p| then OutOfBounds
    else Ok(Truncate(p[1..nul], ToI64(p[nul + 1..nul + 9])))
  }

  /** The byte count is the last eight bytes of the payload; that many bytes are
      copied from behind the descriptor into a buffer of |p| - 13 bytes. */
  function DecodeWrite(p: bytes): (d: Decoded)
    requires |p| > 0
  {
    if |p| < 13 then OutOfBounds
    else
      var nbyte := FromLittle(p[|p| - 8..]);
      if nbyte > |p| - 13 then OutOfBounds
      else Ok(Write(ToI32(p[1..5]), p[5..5 + nbyte]))
  }

  function DecodeRename(p: bytes): (d: Decoded)
    requires |p| > 0
  {
    var nul := FirstNul(p, 1);
    if nul == |p| then OutOfBounds
    else
      var end := FirstNul(p, nul + 1);
      if end == |p| then OutOfBounds else Ok(Rename(p[1..nul], p[nul + 1..end]))
  }

  /** A field laid out between two others is found at its offset. */
  lemma FieldAt(before: bytes, field: bytes, after: bytes)
    ensures (before + field + after)[|before|..|before| + |field|] == field
  {
  }

  /** Where a string, a four-byte field and what follows it end up in a payload. */
  lemma StringThenField(code: byte, s: bytes, field: bytes, tail: bytes)
    requires NulFree(s)
    ensures var p := [code] + (s + [0] + field + tail);
            var nul := 1 + |s|;
            && FirstNul(p, 1) == nul
            && p[1..nul] == s
            && p[nul + 1..nul + 1 + |field|] == field
            && p[nul + 1 + |field|..] == tail
  {
    var p := [code] + (s + [0] + field + tail);
    assert p == [code] + s + [0] + (field + tail);
    FirstNulFinds([code], s, field + tail);
    assert p == [code] + s + ([0] + field + tail);
    FieldAt([code], s, [0] + field + tail);
    assert p == ([code] + s + [0]) + field + tail;
    FieldAt([code] + s + [0], field, tail);
  }

  lemma OpenDecodes(path: bytes, flags: int, mode: Option<nat>)
    requires Sendable(Open(path, flags, mode))
    ensures Decode(Payload(Open(path, flags, mode))) == Ok(Forwarded(Open(path, flags, mode)))
  {
    var p := Payload(Open(path, flags, mode));
    var tail := if flags == O_CREAT then U32(mode.value) else [];
    var nul := 1 + |path|;
    StringThenField(0, path, I32(flags), tail);
    I32RoundTrip(flags);
    if flags == O_CREAT {
      assert p[nul + 5..nul + 9] == p[nul + 5..];
      U32RoundTrip(mode.value);
    }
  }

  lemma TruncateDecodes(path: bytes, length: int)
    requires Sendable(Truncate(path, length))
    ensures Decode(Payload(Truncate(path, length))) == Ok(Truncate(path, length))
  {
    assert Arguments(Truncate(path, length)) == path + [0] + I64(length) + [];
    StringThenField(5, path, I64(length), []);
    I64RoundTrip(length);
  }

  lemma PathDecodes(c: Call)
    requires Sendable(c) && (c.Stat? || c.Unlink?)
    ensures Decode(Payload(c)) == Ok(c)
  {
    var p := Payload(c);
    assert p == [Code(c)] + c.path + [0] + [];
    FirstNulFinds([Code(c)], c.path, []);
    assert p[1..1 + |c.path|] == c.path;
  }

  /** Two strings back to back: the second starts behind the first one's NUL. */
  lemma RenameDecodes(source: bytes, target: bytes)
    requires Sendable(Rename(source, target))
    ensures Decode(Payload(Rename(source, target))) == Ok(Rename(source, target))
  {
    TwoStrings(10, source, target);
  }

  lemma TwoStrings(code: byte, s: bytes, t: bytes)
    requires NulFree(s) && NulFree(t)
    ensures var p := [code] + (s + [0] + t + [0]);
            var nul := 1 + |s|;
            var end := nul + 1 + |t|;
            && FirstNul(p, 1) == nul && p[1..nul] == s
            && FirstNul(p, nul + 1) == end && p[nul + 1..end] == t && |p| == end + 1
  {
    var p := [code] + (s + [0] + t + [0]);
    StringThenField(code, s, t, [0]);
    var head := [code] + s + [0];
    assert p == head + t + [0] + [];
    FirstNulFinds(head, t, []);
  }

  /** For any data, zeros and look-alike lengths included, the trailing length is
      the data's length and the copy is the data. */
  lemma WriteDecodes(fd: int, data: bytes)
    requires Sendable(Write(fd, data))
    ensures Decode(Payload(Write(fd, data))) == Ok(Write(fd, data))
  {
    var p := Payload(Write(fd, data));
    assert p == [3] + I32(fd) + data + U64(|data|);
    assert p[1..5] == I32(fd);
    assert p[|p| - 8..] == U64(|data|);
    assert p[5..5 + |data|] == data;
    I32RoundTrip(fd);
    U64RoundTrip(|data|);
  }

  lemma FdDecodes(c: Call)
    requires Sendable(c) && (c.Close? || c.Fstat? || c.Fsync?)
    ensures Decode(Payload(c)) == Ok(c)
  {
    assert Payload(c) == [Code(c)] + I32(c.fd);
    assert Payload(c)[1..5] == I32(c.fd);
    I32RoundTrip(c.fd);
  }

  lemma ReadDecodes(fd: int, nbyte: nat)
    requires Sendable(Read(fd, nbyte))
    ensures Decode(Payload(Read(fd, nbyte))) == Ok(Read(fd, nbyte))
  {
    var p := [2] + (I32(fd) + U64(nbyte));
    assert p[1..5] == I32(fd) && p[5..13] == U64(nbyte);
    I32RoundTrip(fd);
    U64RoundTrip(nbyte);
  }

  lemma FtruncateDecodes(fd: int, length: int)
    requires Sendable(Ftruncate(fd, length))
    ensures Decode(Payload(Ftruncate(fd, length))) == Ok(Ftruncate(fd, length))
  {
    var p := [6] + (I32(fd) + I64(length));
    assert p[1..5] == I32(fd) && p[5..13] == I64(length);
    I32RoundTrip(fd);
    I64RoundTrip(length);
  }

  lemma LseekDecodes(fd: int, offset: int, whence: int)
    requires Sendable(Lseek(fd, offset, whence))
    ensures Decode(Payload(Lseek(fd, offset, whence))) == Ok(Lseek(fd, offset, whence))
  {
    var p := [4] + (I32(fd) + I64(offset) + I32(whence));
    assert p[1..5] == I32(fd) && p[5..13] == I64(offset) && p[13..17] == I32(whence);
    I32RoundTrip(fd);
    I64RoundTrip(offset);
    I32RoundTrip(whence);
  }

  /** The handler recovers from a stub's payload exactly the call the stub
      forwards, for all twelve calls; it never reaches the unsupported branch. */
  lemma RoundTrip(c: Call)
    requires Sendable(c)
    ensures Decode(Payload(c)) == Ok(Forwarded(c))
  {
    match c
    case Open(path, flags, mode) => OpenDecodes(path, flags, mode);
    case Truncate(path, length) => TruncateDecodes(path, length);
    case Stat(_) => PathDecodes(c);
    case Unlink(_) => PathDecodes(c);
    case Rename(source, target) => RenameDecodes(source, target);
    case Write(fd, data) => WriteDecodes(fd, data);
    case Read(fd, nbyte) => ReadDecodes(fd, nbyte);
    case Lseek(fd, offset, whence) => LseekDecodes(fd, offset, whence);
    case Ftruncate(fd, length) => FtruncateDecodes(fd, length);
    case _ => FdDecodes(c);
  }

  /** Where the source puts each field of a payload: the codes are the positions in
      its enumeration, and the sizes those of the C types. */
  predicate LaidOut(c: Call, p: bytes) {
    |p| > 0 &&
    match c
    case Open(path, flags, mode) =>
      var end := 1 + |path| + 1;
      && p[0] == 0 && |p| == end + (if flags == 0x40 then 8 else 4)
      && p[1..end] == path + [0] && ToI32(p[end..end + 4]) == flags
      && (flags == 0x40 ==> mode == Some(FromLittle(p[end + 4..end + 8])))
    case Close(fd) => |p| == 5 && p[0] == 1 && ToI32(p[1..5]) == fd
    case Read(fd, nbyte) => |p| == 13 && p[0] == 2 && ToI32(p[1..5]) == fd && FromLittle(p[5..13]) == nbyte
    case Write(fd, data) =>
      && |p| == 13 + |data| && p[0] == 3 && ToI32(p[1..5]) == fd && p[5..5 + |data|] == data
      && FromLittle(p[5 + |data|..13 + |data|]) == |data|
    case Lseek(fd, offset, whence) =>
      |p| == 17 && p[0] == 4 && ToI32(p[1..5]) == fd && ToI64(p[5..13]) == offset && ToI32(p[13..17]) == whence
    case Truncate(path, length) =>
      var end := 1 + |path| + 1;
      |p| == end + 8 && p[0] == 5 && p[1..end] == path + [0] && ToI64(p[end..end + 8]) == length
    case Ftruncate(fd, length) => |p| == 13 && p[0] == 6 && ToI32(p[1..5]) == fd && ToI64(p[5..13]) == length
    case Stat(path) => p == [7] + path + [0]
    case Fstat(fd) => |p| == 5 && p[0] == 8 && ToI32(p[1..5]) == fd
    case Fsync(fd) => |p| == 5 && p[0] == 9 && ToI32(p[1..5]) == fd
    case Rename(source, target) => p == [10] + source + [0] + target + [0]
    case Unlink(path) => p == [11] + path + [0]
  }

  /** A field behind `before` is at its place. */
  lemma PlacedAt(p: bytes, before: bytes, field: bytes, after: bytes)
    requires p == before + field + after
    ensures p[|before|..|before| + |field|] == field
  {
  }

  /** The bytes of every payload, place by place. */
  lemma PayloadIsLaidOut(c: Call)
    requires Sendable(c)
    ensures LaidOut(c, Payload(c))
  {
    match c
    case Open(path, flags, mode) => OpenIsLaidOut(path, flags, mode);
    case Write(_, _) => WriteIsLaidOut(c);
    case Lseek(_, _, _) => LseekIsLaidOut(c);
    case Truncate(_, _) => TruncateIsLaidOut(c);
    case Stat(_) => PathsAreLaidOut(c);
    case Rename(_, _) => PathsAreLaidOut(c);
    case Unlink(_) => PathsAreLaidOut(c);
    case _ => ShortIsLaidOut(c);
  }

  lemma ShortIsLaidOut(c: Call)
    requires Sendable(c) && (c.Close? || c.Read? || c.Ftruncate? || c.Fstat? || c.Fsync?)
    ensures LaidOut(c, Payload(c))
  {
    var p := Payload(c);
    I32RoundTrip(c.fd);
    PlacedAt(p, [Code(c)], I32(c.fd), p[5..]);
    if c.Read? {
      U64RoundTrip(c.nbyte);
      PlacedAt(p, [2] + I32(c.fd), U64(c.nbyte), []);
    } else if c.Ftruncate? {
      I64RoundTrip(c.length);
      PlacedAt(p, [6] + I32(c.fd), I64(c.length), []);
    }
  }

  lemma WriteIsLaidOut(c: Call)
    requires Sendable(c) && c.Write?
    ensures LaidOut(c, Payload(c))
  {
    var p := Payload(c);
    I32RoundTrip(c.fd);
    U64RoundTrip(|c.data|);
    PlacedAt(p, [3], I32(c.fd), c.data + U64(|c.data|));
    PlacedAt(p, [3] + I32(c.fd), c.data, U64(|c.data|));
    PlacedAt(p, [3] + I32(c.fd) + c.data, U64(|c.data|), []);
  }

  lemma LseekIsLaidOut(c: Call)
    requires Sendable(c) && c.Lseek?
    ensures LaidOut(c, Payload(c))
  {
    var p := Payload(c);
    I32RoundTrip(c.fd);
    I64RoundTrip(c.offset);
    I32RoundTrip(c.whence);
    PlacedAt(p, [4], I32(c.fd), I64(c.offset) + I32(c.whence));
    PlacedAt(p, [4] + I32(c.fd), I64(c.offset), I32(c.whence));
    PlacedAt(p, [4] + I32(c.fd) + I64(c.offset), I32(c.whence), []);
  }

  lemma TruncateIsLaidOut(c: Call)
    requires Sendable(c) && c.Truncate?
    ensures LaidOut(c, Payload(c))
  {
    var p := Payload(c);
    I64RoundTrip(c.length);
    PlacedAt(p, [5], c.path + [0], I64(c.length));
    PlacedAt(p, [5] + (c.path + [0]), I64(c.length), []);
  }

  lemma PathsAreLaidOut(c: Call)
    requires Sendable(c) && (c.Stat? || c.Rename? || c.Unlink?)
    ensures LaidOut(c, Payload(c))
  {
    if c.Rename? {
      assert [10] + (c.source + [0] + c.target + [0]) == [10] + c.source + [0] + c.target + [0];
    } else {
      assert [Code(c)] + (c.path + [0]) == [Code(c)] + c.path + [0];
    }
  }

  lemma OpenIsLaidOut(path: bytes, flags: int, mode: Option<nat>)
    requires Sendable(Open(path, flags, mode))
    ensures LaidOut(Open(path, flags, mode), Payload(Open(path, flags, mode)))
  {
    var p := Payload(Open(path, flags, mode));
    var tail := if flags == O_CREAT then U32(mode.value) else [];
    assert p == [0] + (path + [0]) + (I32(flags) + tail);
    assert p == [0] + (path + [0]) + I32(flags) + tail;
    I32RoundTrip(flags);
    PlacedAt(p, [0], path + [0], I32(flags) + tail);
    PlacedAt(p, [0] + (path + [0]), I32(flags), tail);
    if flags == O_CREAT {
      ModeIsLaidOut(p, path, flags, mode.value);
    }
  }

  lemma ModeIsLaidOut(p: bytes, path: bytes, flags: int, mode: nat)
    requires IsInt32(flags) && IsUInt32(mode) && p == [0] + (path + [0]) + I32(flags) + U32(mode)
    ensures |p| == |path| + 10 && FromLittle(p[|path| + 6..|path| + 10]) == mode
  {
    U32RoundTrip(mode);
    PlacedAt(p, [0] + (path + [0]) + I32(flags), U32(mode), []);
  }

  /** And of every reply: a `ssize_t` or `off_t` result for `read`, `write` and
      `lseek`, an `int` for the others; then the buffer, or the `struct stat`. */
  lemma ReplyIsLaidOut(c: Call, r: Ret, junk: bytes)
    requires RetFits(c, r) && |junk| == JunkLength(c, r)
    ensures var b := Reply(c, r, junk);
            match c
            case Read(_, nbyte) => |b| == 8 + nbyte && ToI64(b[..8]) == r.n && b[8..] == r.data + junk
            case Write(_, _) => |b| == 8 && ToI64(b) == r.v
            case Lseek(_, _, _) => |b| == 8 && ToI64(b) == r.v
            case Stat(_) => |b| == 4 + SIZEOF_STAT && ToI32(b[..4]) == r.err && b[4..] == r.info + junk
            case Fstat(_) => |b| == 4 + SIZEOF_STAT && ToI32(b[..4]) == r.err && b[4..] == r.info + junk
            case _ => |b| == 4 && ToI32(b) == r.v
  {
    var b := Reply(c, r, junk);
    match r
    case Data(n, data) =>
      I64RoundTrip(n);
      assert b == I64(n) + (data + junk);
    case Info(err, info) =>
      I32RoundTrip(err);
      assert b == I32(err) + (info + junk);
    case Int(v) =>
      if c.Write? || c.Lseek? {
        I64RoundTrip(v);
      } else {
        I32RoundTrip(v);
      }
  }

  /** So requests determine calls. */
  lemma RequestInjective(c: Call, c': Call)
    requires Encodable(c) && Encodable(c') && Request(c) == Request(c')
    ensures Forwarded(c) == Forwarded(c')
  {
    RoundTrip(c);
    RoundTrip(c');
    assert Payload(c) == Request(c)[8..];
    assert Payload(c') == Request(c')[8..];
  }

  /** Framing: the first receive takes the eight header bytes, the header is the
      payload's length, and the second receive of that length takes the rest. */
  lemma Framing(c: Call)
    requires Encodable(c)
    ensures |Request(c)| >= 8
    ensures var size := FromLittle(Request(c)[..8]);
            size == |Payload(c)| && Request(c)[8..] == Payload(c) && |Request(c)| == 8 + size
  {
    assert Request(c)[..8] == U64(|Payload(c)|);
    U64RoundTrip(|Payload(c)|);
  }

  /** The size arithmetic of the `write` stub, in `size_t`, is exact if and only if
      the count is at most 2^64 - 22. */
  lemma WriteSizeExactIff(nbyte: nat)
    requires IsSize(nbyte)
    ensures
      var payloadSize := SizeAdd(SizeAdd(SizeAdd(1, 4), nbyte), 8);
      payloadSize == 1 + 4 + nbyte + 8 && SizeAdd(8, payloadSize) == 8 + 1 + 4 + nbyte + 8
      <==> nbyte <= TWO64 - 22
  {
    if nbyte <= TWO64 - 22 {
    } else {
      assert 8 + 1 + 4 + nbyte + 8 >= TWO64;
    }
  }

  // ---- replies ----

  /** How many bytes the stub asks for. */
  function ReplyLength(c: Call): (n: nat) {
    match c
    case Read(_, nbyte) => 8 + nbyte
    case Write(_, _) => 8
    case Lseek(_, _, _) => 8
    case Stat(_) => 4 + SIZEOF_STAT
    case Fstat(_) => 4 + SIZEOF_STAT
    case _ => 4
  }

  /** How much of the handler's buffer the call left uninitialised. */
  function JunkLength(c: Call, r: Ret): (n: nat)
    requires RetFits(c, r)
  {
    match c
    case Read(_, nbyte) => nbyte - |r.data|
    case Stat(_) => SIZEOF_STAT - |r.info|
    case Fstat(_) => SIZEOF_STAT - |r.info|
    case _ => 0
  }

  /** The reply: the return value, then the whole buffer, whose uninitialised part
      is `junk`. */
  function Reply(c: Call, r: Ret, junk: bytes): (b: bytes)
    requires RetFits(c, r) && |junk| == JunkLength(c, r)
  {
    match r
    case Data(n, data) => I64(n) + data + junk
    case Info(err, info) => I32(err) + info + junk
    case Int(v) => if c.Write? || c.Lseek? then I64(v) else I32(v)
  }

  /** What the stub extracts from the reply. */
  function Extract(c: Call, b: bytes): (r: Ret)
    requires |b| == ReplyLength(c)
  {
    match c
    case Read(_, nbyte) =>
      var n := ToI64(b[..8]);
      Data(n, b[8..8 + Max(0, Min(n, nbyte))])
    case Write(_, _) => Int(ToI64(b))
    case Lseek(_, _, _) => Int(ToI64(b))
    case Stat(_) => var err := ToI32(b[..4]); Info(err, if err == 0 then b[4..] else [])
    case Fstat(_) => var err := ToI32(b[..4]); Info(err, if err == 0 then b[4..] else [])
    case _ => Int(ToI32(b))
  }

  /** The handler sends as many bytes as the stub asks for, and the stub extracts
      what the handler's call returned, whatever the uninitialised bytes were. */
  lemma ReplyRoundTrip(c: Call, r: Ret, junk: bytes)
    requires RetFits(c, r) && |junk| == JunkLength(c, r)
    ensures |Reply(c, r, junk)| == ReplyLength(c)
    ensures Extract(c, Reply(c, r, junk)) == r
  {
    var b := Reply(c, r, junk);
    match r
    case Data(n, data) =>
      assert b[..8] == I64(n);
      I64RoundTrip(n);
      assert b[8..8 + |data|] == data;
    case Info(err, info) =>
      assert b[..4] == I32(err);
      I32RoundTrip(err);
      if err == 0 {
        assert b[4..] == info;
      }
    case Int(v) =>
      if c.Write? || c.Lseek? {
        I64RoundTrip(v);
      } else {
        I32RoundTrip(v);
      }
  }
}
