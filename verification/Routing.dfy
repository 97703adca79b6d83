/** Which calls go to the server, and how the server numbers the files it opens. */
module Routing {
  import opened CData
  import opened Calls
  import opened Kernel

  const SLASH: byte := 0x2f

  predicate HasPrefix(path: bytes) {
    |path| >= 2 && path[0] == SLASH && path[1] == SLASH
  }

  /** The number a client sees for the server's descriptor `fd`, and back. */
  function Handle(fd: int): (h: int) {
    INT_MAX - fd
  }

  predicate IsHandle(fd: int) {
    fd > INT_MAX / 2
  }

  /** The stubs' test: the descriptor, or the (first) path. */
  predicate GoesRemote(c: Call) {
    if HasFd(c) then IsHandle(c.fd)
    else if c.Rename? then HasPrefix(c.source)
    else HasPrefix(c.path)
  }

  /** The call as it is sent: paths lose their first two bytes. `rename` tests only
      the old path but strips both. */
  function OnTheWire(c: Call): (w: Call)
    requires GoesRemote(c) && (c.Rename? ==> |c.target| >= 2)
    ensures HasFd(c) ==> w == c
  {
    if HasFd(c) then c
    else if c.Rename? then Rename(c.source[2..], c.target[2..])
    else c.(path := c.path[2..])
  }

  /** `INT_MAX - fd` is its own inverse, never overflows an `int`, and exchanges
      the lower half of the descriptors with the handles; errors stay negative. So
      the routing test separates the two for every value. */
  lemma HandlesSplit(fd: int)
    requires IsInt32(fd)
    ensures 0 <= fd ==> IsInt32(Handle(fd)) && Handle(Handle(fd)) == fd
    ensures 0 <= fd <= INT_MAX / 2 <==> 0 <= fd && IsHandle(Handle(fd)) && Handle(fd) <= INT_MAX
    ensures IsHandle(fd) <==> 0 <= Handle(fd) <= INT_MAX / 2
    ensures IsHandle(fd) ==> fd >= 0
    ensures fd + Handle(fd) == 0x7fff_ffff && (IsHandle(fd) <==> fd >= 0x4000_0000)
  {
  }

  /** The handler's part: decoded handles become descriptors, and a descriptor that
      `open` returned becomes a handle. */
  function Serve(k: Kernel, c: Call): (r: (Kernel, Ret))
    requires ArgsOk(c)
  {
    if HasFd(c) then Sys(k, c.(fd := Handle(c.fd)))
    else
      var (k', r) := Sys(k, c);
      (k', if c.Open? && r.v >= 0 then Int(Handle(r.v)) else r)
  }

  /** On the handle of a file opened O_RDWR, `read` returns what one `write` stored,
      once `lseek` is back where it began. */
  lemma ReadBack(k: Kernel, h: int, data: bytes)
    requires var fd := Handle(h); fd in k.table && k.table[fd].File?
    requires var w, o := k.world, k.table[Handle(h)].ofd;
             && o in w.ofds && w.ofds[o].ino in w.inodes && w.ofds[o].flags == O_RDWR
             && |data| <= IO_MAX && w.ofds[o].offset + |data| < TWO63
    ensures var at := k.world.ofds[k.table[Handle(h)].ofd].offset;
            var (k1, r1) := Serve(k, Write(h, data));
            var (k2, r2) := Serve(k1, Lseek(h, at, 0));
            r1 == Int(|data|) && r2 == Int(at) && Serve(k2, Read(h, |data|)).1 == Data(|data|, data)
  {
    WriteThenRead(k, Handle(h), data);
  }

  lemma ServeFits(k: Kernel, c: Call)
    requires ArgsOk(c)
    requires k.limit <= INT_MAX / 2 + 1
    ensures RetFits(c, Serve(k, c).1)
    ensures Serve(k, c).0.limit == k.limit
    ensures c.Open? ==> var v := Serve(k, c).1.v; v == -1 || (IsHandle(v) && v <= INT_MAX)
  {
    SysFits(k, if HasFd(c) then c.(fd := Handle(c.fd)) else c);
  }
}
