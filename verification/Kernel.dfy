/** One machine's kernel, as far as the twelve calls see it: names, inodes, open
    file descriptions with offsets, and a process's descriptor table, in which
    sockets take numbers like files do. New descriptors get the lowest free number
    (section 2.14 of the System Interfaces volume of POSIX.1-2017). */
module Kernel {
  import opened CData
  import opened Calls

  datatype Inode = Inode(data: bytes, mode: nat)
  datatype Ofd = Ofd(ino: nat, offset: nat, flags: int)
  datatype World = World(
    names: map<bytes, nat>,
    inodes: map<nat, Inode>,
    ofds: map<nat, Ofd>,
    nextIno: nat,
    nextOfd: nat)

  datatype Entry = Other | Listener | Sock(conn: nat) | File(ofd: nat)

  /** `limit` is the process's descriptor limit. */
  datatype Kernel = Kernel(world: World, table: map<int, Entry>, limit: nat)

  const O_WRONLY := 1
  const O_RDWR := 2
  const O_EXCL := 0x80
  const O_TRUNC := 0x200
  const O_APPEND := 0x400
  const IO_MAX := 0x7fff_f000 // most bytes one read or write moves on Linux

  predicate Writable(flags: int)
    requires IsInt32(flags)
  {
    Bit(flags, O_WRONLY) || Bit(flags, O_RDWR)
  }

  function Resize(data: bytes, length: nat): (r: bytes)
    ensures |r| == length
  {
    if length <= |data| then data[..length] else data + Zeros(length - |data|)
  }

  /** `data` with `more` written at `at`, past a hole of zeros if need be. */
  function Splice(data: bytes, at: nat, more: bytes): (r: bytes)
    ensures |r| == Max(|data|, at + |more|)
  {
    var padded := if |data| < at then Resize(data, at) else data;
    padded[..at] + more + padded[Min(at + |more|, |padded|)..]
  }

  function SetData(w: World, ino: nat, data: bytes): (w': World)
    requires ino in w.inodes
  {
    w.(inodes := w.inodes[ino := w.inodes[ino].(data := data)])
  }

  function StatBytes(ino: nat, node: Inode): (b: bytes)
    ensures |b| == SIZEOF_STAT
  {
    U64(ino) + U32(node.mode) + U64(|node.data|) + Zeros(SIZEOF_STAT - 20)
  }

  /** `open` without the descriptor: a new open file description, if any. */
  function OpenFile(w: World, path: bytes, flags: int, mode: Option<nat>): (r: (World, Option<nat>))
    requires IsInt32(flags)
    ensures r.1.None? ==> r.0 == w
    ensures r.1.Some? ==>
      r.1.value == w.nextOfd && r.0.nextOfd == w.nextOfd + 1 && r.0.ofds.Keys == w.ofds.Keys + {w.nextOfd}
  {
    var o := w.nextOfd;
    if path in w.names && w.names[path] in w.inodes then
      if Bit(flags, O_CREAT) && Bit(flags, O_EXCL) then (w, None)
      else
        var ino := w.names[path];
        var w1 := if Bit(flags, O_TRUNC) && Writable(flags) then SetData(w, ino, []) else w;
        (w1.(ofds := w1.ofds[o := Ofd(ino, 0, flags)], nextOfd := o + 1), Some(o))
    else if Bit(flags, O_CREAT) && path != [] then
      var ino := w.nextIno;
      var node := Inode([], if mode.Some? then mode.value else 0);
      (w.(names := w.names[path := ino], inodes := w.inodes[ino := node], nextIno := ino + 1,
          ofds := w.ofds[o := Ofd(ino, 0, flags)], nextOfd := o + 1), Some(o))
    else (w, None)
  }

  /** The calls on an open file description, other than `close`. */
  function FileCall(w: World, o: nat, c: Call): (r: (World, Ret))
    requires HasFd(c) && ArgsOk(c)
    ensures RetFits(c, r.1)
    ensures r.0.nextOfd == w.nextOfd && r.0.ofds.Keys == w.ofds.Keys
  {
    if o !in w.ofds || w.ofds[o].ino !in w.inodes || !IsInt32(w.ofds[o].flags) then (w, Failed(c))
    else
      var d := w.ofds[o];
      var node := w.inodes[d.ino];
      match c
      case Read(_, nbyte) =>
        if Bit(d.flags, O_WRONLY) then (w, Failed(c))
        else
          var start := Min(d.offset, |node.data|);
          var n := Min(Min(nbyte, IO_MAX), |node.data| - start);
          (w.(ofds := w.ofds[o := d.(offset := d.offset + n)]), Data(n, node.data[start..start + n]))
      case Write(_, data) =>
        var at := if Bit(d.flags, O_APPEND) then |node.data| else d.offset;
        var n := Min(|data|, IO_MAX);
        if !Writable(d.flags) || at + n >= TWO63 then (w, Failed(c))
        else
          var w1 := SetData(w, d.ino, if n == 0 then node.data else Splice(node.data, at, data[..n]));
          (w1.(ofds := w1.ofds[o := d.(offset := at + n)]), Int(n))
      case Lseek(_, offset, whence) =>
        var target := offset + if whence == 1 then d.offset else if whence == 2 then |node.data| else 0;
        if !(0 <= whence <= 2) || target < 0 || target >= TWO63 then (w, Failed(c))
        else (w.(ofds := w.ofds[o := d.(offset := target)]), Int(target))
      case Ftruncate(_, length) =>
        if !Writable(d.flags) || length < 0 then (w, Failed(c))
        else (SetData(w, d.ino, Resize(node.data, length)), Int(0))
      case Fstat(_) => (w, Info(0, StatBytes(d.ino, node)))
      case _ => (w, Int(0))
  }

  /** The calls on a name. */
  function PathCall(w: World, c: Call): (r: (World, Ret))
    requires !HasFd(c) && !c.Open? && ArgsOk(c)
    ensures RetFits(c, r.1)
    ensures r.0.nextOfd == w.nextOfd && r.0.ofds == w.ofds
  {
    var path := if c.Rename? then c.source else c.path;
    if path !in w.names || w.names[path] !in w.inodes then (w, Failed(c))
    else
      var ino := w.names[path];
      var node := w.inodes[ino];
      match c
      case Truncate(_, length) =>
        if length < 0 then (w, Failed(c)) else (SetData(w, ino, Resize(node.data, length)), Int(0))
      case Stat(_) => (w, Info(0, StatBytes(ino, node)))
      case Rename(source, target) =>
        if target == [] then (w, Failed(c))
        else (w.(names := (w.names - {source})[target := ino]), Int(0))
      case Unlink(_) => (w.(names := w.names - {path}), Int(0))
  }

  /** The smallest number at or above `n` outside `used`. */
  function FreeFrom(used: set<int>, n: int): (r: int)
    ensures n <= r && r !in used
    ensures forall m :: n <= m < r ==> m in used
    decreases |used|
  {
    if n in used then
      var r := FreeFrom(used - {n}, n + 1);
      assert r !in used - {n} && r != n;
      assert forall m :: n <= m < r ==> m in used by {
        forall m | n <= m < r
          ensures m in used
        {
          assert m == n || m in used - {n};
        }
      }
      r
    else n
  }

  function LowestFree(k: Kernel): (r: int)
    ensures r >= 0 && r !in k.table
    ensures forall m :: 0 <= m < r ==> m in k.table
  {
    FreeFrom(k.table.Keys, 0)
  }

  predicate HasRoom(k: Kernel) {
    LowestFree(k) < k.limit
  }

  function Insert(k: Kernel, e: Entry): (k': Kernel) {
    k.(table := k.table[LowestFree(k) := e])
  }

  function Remove(k: Kernel, fd: int): (k': Kernel) {
    k.(table := k.table - {fd})
  }

  /** A call by the process, given whether a descriptor is free for it. */
  function SysWith(k: Kernel, c: Call, room: bool): (r: (Kernel, Ret))
    requires ArgsOk(c)
  {
    match c
    case Open(path, flags, mode) =>
      if !room then (k, Int(-1))
      else
        var (w, o) := OpenFile(k.world, path, flags, mode);
        if o.None? then (k, Int(-1))
        else (Insert(k, File(o.value)).(world := w), Int(LowestFree(k)))
    case Close(fd) =>
      if fd !in k.table then (k, Int(-1))
      else if k.table[fd].File? then
        (Remove(k, fd).(world := k.world.(ofds := k.world.ofds - {k.table[fd].ofd})), Int(0))
      else (Remove(k, fd), Int(0))
    case _ =>
      if !HasFd(c) then
        var (w, r) := PathCall(k.world, c);
        (k.(world := w), r)
      else if c.fd in k.table && k.table[c.fd].File? then
        var (w, r) := FileCall(k.world, k.table[c.fd].ofd, c);
        (k.(world := w), r)
      else (k, Failed(c))
  }

  function Sys(k: Kernel, c: Call): (r: (Kernel, Ret))
    requires ArgsOk(c)
  {
    SysWith(k, c, HasRoom(k))
  }

  lemma SysFits(k: Kernel, c: Call)
    requires ArgsOk(c) && k.limit <= TWO31
    ensures RetFits(c, Sys(k, c).1)
    ensures Sys(k, c).0.limit == k.limit
    ensures c.Open? ==> -1 <= Sys(k, c).1.v < k.limit
  {
  }

  /** Every file descriptor names its own live open file description. */
  predicate FilesOk(k: Kernel) {
    && (forall fd :: fd in k.table && k.table[fd].File? ==> k.table[fd].ofd < k.world.nextOfd)
    && (forall fd, fd' :: fd in k.table && fd' in k.table && k.table[fd].File? && k.table[fd] == k.table[fd'] ==>
          fd == fd')
  }

  /** No call, `open` and `close` included, makes two descriptors share one. */
  lemma SysKeepsFilesOk(k: Kernel, c: Call, room: bool)
    requires FilesOk(k) && ArgsOk(c)
    ensures FilesOk(SysWith(k, c, room).0)
  {
  }

  /** Sockets come and go; files and the world stay. */
  ghost predicate SameFiles(k: Kernel, k': Kernel) {
    && k'.world == k.world && k'.limit == k.limit
    && forall fd, o :: (fd in k.table && k.table[fd] == File(o)) <==> (fd in k'.table && k'.table[fd] == File(o))
  }

  /** A call that touches no socket and not the listener. */
  ghost predicate OnlyFilesChange(k: Kernel, k': Kernel) {
    && (forall fd :: fd in k.table && !k.table[fd].File? ==> fd in k'.table && k'.table[fd] == k.table[fd])
    && (forall fd :: fd in k'.table && !k'.table[fd].File? ==> fd in k.table && k.table[fd] == k'.table[fd])
  }

  /** What one `write` stores, `lseek` back and `read` return. */
  lemma WriteThenRead(k: Kernel, fd: int, data: bytes)
    requires fd in k.table && k.table[fd].File?
    requires var w, o := k.world, k.table[fd].ofd;
             && o in w.ofds && w.ofds[o].ino in w.inodes && w.ofds[o].flags == O_RDWR
             && |data| <= IO_MAX && w.ofds[o].offset + |data| < TWO63
    ensures var at := k.world.ofds[k.table[fd].ofd].offset;
            var (k1, r1) := Sys(k, Write(fd, data));
            var (k2, r2) := Sys(k1, Lseek(fd, at, 0));
            r1 == Int(|data|) && r2 == Int(at) && Sys(k2, Read(fd, |data|)).1 == Data(|data|, data)
  {
    var d := k.world.ofds[k.table[fd].ofd];
    var node := k.world.inodes[d.ino];
    assert !Bit(O_RDWR, O_WRONLY) && Bit(O_RDWR, O_RDWR) && !Bit(O_RDWR, O_APPEND);
    assert data[..|data|] == data;
    SpliceStores(node.data, d.offset, data);
    if data == [] {
      assert Sys(k, Write(fd, data)).0.world.inodes[d.ino] == node;
    }
  }

  lemma SpliceStores(data: bytes, at: nat, more: bytes)
    ensures Splice(data, at, more)[at..at + |more|] == more
    ensures Splice(data, at, more)[..Min(at, |data|)] == data[..Min(at, |data|)]
  {
  }
}
