/** The twelve hooked calls, their results, and what the hook's C signature says
    about the values they carry. */
module Calls {
  import opened CData

  /** A call with its arguments. `mode` is what the program passed after the
      flags of `open`, if anything. A path is the string without its NUL. */
  datatype Call =
    | Open(path: bytes, flags: int, mode: Option<nat>)
    | Close(fd: int)
    | Read(fd: int, nbyte: nat)
    | Write(fd: int, data: bytes)
    | Lseek(fd: int, offset: int, whence: int)
    | Truncate(path: bytes, length: int)
    | Ftruncate(fd: int, length: int)
    | Stat(path: bytes)
    | Fstat(fd: int)
    | Fsync(fd: int)
    | Rename(source: bytes, target: bytes)
    | Unlink(path: bytes)

  /** What a call returns. For `read`, the first max(0, n) bytes of the caller's
      buffer; for `stat` and `fstat`, the `struct stat` when the call succeeded. */
  datatype Ret =
    | Int(v: int)
    | Data(n: int, data: bytes)
    | Info(err: int, info: bytes)

  const SIZEOF_STAT := 144

  /** Linux values of the `open` flags. */
  const O_CREAT := 0x40

  function Bit(flags: int, bit: nat): (set_: bool)
    requires IsInt32(flags) && bit > 0
  {
    ((if flags < 0 then flags + TWO32 else flags) / bit) % 2 == 1
  }

  predicate HasFd(c: Call) {
    c.Close? || c.Read? || c.Write? || c.Lseek? || c.Ftruncate? || c.Fstat? || c.Fsync?
  }

  /** The arguments, descriptors aside, fit the C types of the parameters, and
      strings are C strings. */
  predicate ArgsOk(c: Call) {
    match c
    case Open(path, flags, mode) =>
      NulFree(path) && IsInt32(flags) && (mode.Some? ==> IsUInt32(mode.value))
    case Read(_, nbyte) => IsSize(nbyte)
    case Write(_, data) => IsSize(|data|)
    case Lseek(_, offset, whence) => IsInt64(offset) && IsInt32(whence)
    case Truncate(path, length) => NulFree(path) && IsInt64(length)
    case Ftruncate(_, length) => IsInt64(length)
    case Stat(path) => NulFree(path)
    case Rename(source, target) => NulFree(source) && NulFree(target)
    case Unlink(path) => NulFree(path)
    case _ => true
  }

  predicate InRange(c: Call) {
    ArgsOk(c) && (HasFd(c) ==> IsInt32(c.fd))
  }

  /** The result of a call that failed. */
  function Failed(c: Call): (r: Ret) {
    if c.Read? then Data(-1, [])
    else if c.Stat? || c.Fstat? then Info(-1, [])
    else Int(-1)
  }

  /** A result has the shape and range of the call's C return type. */
  predicate RetFits(c: Call, r: Ret) {
    match c
    case Read(_, nbyte) => r.Data? && IsInt64(r.n) && |r.data| == Max(0, r.n) <= nbyte
    case Write(_, _) => r.Int? && IsInt64(r.v)
    case Lseek(_, _, _) => r.Int? && IsInt64(r.v)
    case Stat(_) => r.Info? && IsInt32(r.err) && |r.info| == (if r.err == 0 then SIZEOF_STAT else 0)
    case Fstat(_) => r.Info? && IsInt32(r.err) && |r.info| == (if r.err == 0 then SIZEOF_STAT else 0)
    case _ => r.Int? && IsInt32(r.v)
  }

  /** What the hook hands on: both `real_open` and the remote `open` are given the
      mode only when the flags are O_CREAT and nothing else. */
  function Forwarded(c: Call): (f: Call)
    ensures f == c || (c.Open? && f == Open(c.path, c.flags, None))
  {
    if c.Open? && c.flags != O_CREAT then c.(mode := None) else c
  }

  /** POSIX has the program pass a mode exactly when the O_CREAT bit is set. Such
      an `open` reaches the kernel unchanged if and only if its flags are exactly
      O_CREAT or lack the bit; O_CREAT | O_RDWR, say, loses its mode. */
  lemma OpenForwardedIntactIff(path: bytes, flags: int, mode: Option<nat>)
    requires IsInt32(flags) && (mode.Some? <==> Bit(flags, O_CREAT))
    ensures Forwarded(Open(path, flags, mode)) == Open(path, flags, mode)
            <==> flags == O_CREAT || !Bit(flags, O_CREAT)
    ensures Forwarded(Open(path, O_CREAT + 2, Some(0x1a4))) == Open(path, O_CREAT + 2, None)
  {
    assert Bit(O_CREAT, O_CREAT);
  }
}
