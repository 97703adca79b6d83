/** What the twelve calls do to files, said in terms of one another: what a second
    call sees of a first. Flags and limits are Linux's numbers. */
module FileLaws {
  import opened CData
  import opened Calls
  import opened Kernel

  /** The number in a result. */
  function Num(r: Ret): (n: int) {
    match r
    case Int(v) => v
    case Data(n, _) => n
    case Info(err, _) => err
  }

  /** `fd` names an open file. */
  predicate Usable(k: Kernel, fd: int) {
    && fd in k.table && k.table[fd].File? && k.table[fd].ofd in k.world.ofds
    && k.world.ofds[k.table[fd].ofd].ino in k.world.inodes && IsInt32(k.world.ofds[k.table[fd].ofd].flags)
  }

  function Description(k: Kernel, fd: int): (d: Ofd)
    requires Usable(k, fd)
  {
    k.world.ofds[k.table[fd].ofd]
  }

  function Position(k: Kernel, fd: int): (n: nat)
    requires Usable(k, fd)
  {
    Description(k, fd).offset
  }

  function Contents(k: Kernel, fd: int): (data: bytes)
    requires Usable(k, fd)
  {
    k.world.inodes[Description(k, fd).ino].data
  }

  /** `fd` can be written, and not only at the end. */
  predicate PlainWritable(k: Kernel, fd: int)
    requires Usable(k, fd)
  {
    var flags := Description(k, fd).flags;
    (Bit(flags, 1) || Bit(flags, 2)) && !Bit(flags, 0x400)
  }

  // ---- failures ----

  /** Every call returns -1 or no negative number; and if it returns -1, nothing has
      changed. */
  lemma FailureIsMinusOne(k: Kernel, c: Call, room: bool)
    requires ArgsOk(c)
    ensures var (k', r) := SysWith(k, c, room);
            (Num(r) == -1 && k' == k) || Num(r) >= 0
  {
  }

  /** On a number that is not open, they all fail. */
  lemma NotOpenFails(k: Kernel, c: Call)
    requires ArgsOk(c) && HasFd(c) && c.fd !in k.table
    ensures Sys(k, c).0 == k && Num(Sys(k, c).1) == -1
  {
  }

  // ---- reading ----

  /** Two reads give, together, what one read of as many bytes gives, and leave the
      file where it leaves it. */
  lemma ReadsAddUp(k: Kernel, fd: int, n: nat, m: nat)
    requires Usable(k, fd) && n + m <= IO_MAX
    ensures var (k1, r1) := Sys(k, Read(fd, n));
            var (k2, r2) := Sys(k1, Read(fd, m));
            var (k3, r3) := Sys(k, Read(fd, n + m));
            && k2 == k3
            && (if Num(r3) == -1 then r1 == r2 == r3
                else r1.n + r2.n == r3.n && r1.data + r2.data == r3.data)
  {
    var o := k.table[fd].ofd;
    var (k1, r1) := Sys(k, Read(fd, n));
    var (k2, r2) := Sys(k1, Read(fd, m));
    var (k3, r3) := Sys(k, Read(fd, n + m));
    if !Bit(Description(k, fd).flags, O_WRONLY) {
      assert k1.world.ofds == k.world.ofds[o := k1.world.ofds[o]];
      assert k2.world.ofds == k3.world.ofds;
    }
  }

  /** A file open for writing only cannot be read; any other gives as much as is
      asked for and there. */
  lemma ReadGivesIff(k: Kernel, fd: int, n: nat)
    requires Usable(k, fd) && n < TWO64
    ensures var (k', r) := Sys(k, Read(fd, n));
            && (Num(r) >= 0 <==> !Bit(Description(k, fd).flags, 1))
            && (Num(r) >= 0 ==>
                  && Num(r) == Min(Min(n, 0x7fff_f000), Max(0, |Contents(k, fd)| - Position(k, fd)))
                  && Position(k', fd) == Position(k, fd) + Num(r) && Contents(k', fd) == Contents(k, fd)
                  && forall i :: 0 <= i < Num(r) ==> r.data[i] == Contents(k, fd)[Position(k, fd) + i])
  {
  }

  // ---- writing ----

  lemma SplicesAddUp(data: bytes, at: nat, x: bytes, y: bytes)
    ensures Splice(Splice(data, at, x), at + |x|, y) == Splice(data, at, x + y)
  {
    var one, two := Splice(data, at, x + y), Splice(Splice(data, at, x), at + |x|, y);
    forall i | 0 <= i < |one|
      ensures one[i] == two[i]
    {
    }
  }

  /** `k` with the file behind `fd` holding `data` and standing at `at`. */
  function WithFile(k: Kernel, fd: int, data: bytes, at: nat): (k': Kernel)
    requires Usable(k, fd)
    ensures Usable(k', fd) && Contents(k', fd) == data && Position(k', fd) == at
  {
    var w, d := k.world, Description(k, fd);
    k.(world := SetData(w, d.ino, data).(ofds := w.ofds[k.table[fd].ofd := d.(offset := at)]))
  }

  lemma WithFileTwice(k: Kernel, fd: int, data: bytes, at: nat, data': bytes, at': nat)
    requires Usable(k, fd)
    ensures WithFile(WithFile(k, fd, data, at), fd, data', at') == WithFile(k, fd, data', at')
  {
    var one, two := WithFile(k, fd, data', at'), WithFile(WithFile(k, fd, data, at), fd, data', at');
    assert one.world.inodes == two.world.inodes;
    assert one.world.ofds == two.world.ofds;
  }

  lemma WriteIs(k: Kernel, fd: int, x: bytes)
    requires Usable(k, fd) && PlainWritable(k, fd) && |x| <= IO_MAX && Position(k, fd) + |x| < TWO63
    ensures var data := if x == [] then Contents(k, fd) else Splice(Contents(k, fd), Position(k, fd), x);
            Sys(k, Write(fd, x)) == (WithFile(k, fd, data, Position(k, fd) + |x|), Int(|x|))
  {
    assert x[..|x|] == x;
  }

  /** Two writes leave what one write of all the bytes leaves. */
  lemma WritesAddUp(k: Kernel, fd: int, x: bytes, y: bytes)
    requires Usable(k, fd) && PlainWritable(k, fd)
    requires |x| + |y| <= IO_MAX && Position(k, fd) + |x| + |y| < TWO63
    ensures var (k1, r1) := Sys(k, Write(fd, x));
            var (k2, r2) := Sys(k1, Write(fd, y));
            var (k3, r3) := Sys(k, Write(fd, x + y));
            k2 == k3 && r1 == Int(|x|) && r2 == Int(|y|) && r3 == Int(|x| + |y|)
  {
    if x == [] {
      assert x + y == y;
      WriteIs(k, fd, x);
      WithFileSame(k, fd);
      WriteIs(k, fd, y);
    } else if y == [] {
      assert x + y == x;
      WriteIs(k, fd, x);
      var k1 := Sys(k, Write(fd, x)).0;
      WriteIs(k1, fd, y);
      WithFileSame(k1, fd);
    } else {
      BothWrite(k, fd, x, y);
    }
  }

  lemma WithFileSame(k: Kernel, fd: int)
    requires Usable(k, fd)
    ensures WithFile(k, fd, Contents(k, fd), Position(k, fd)) == k
  {
    var w := WithFile(k, fd, Contents(k, fd), Position(k, fd)).world;
    assert w.inodes == k.world.inodes && w.ofds == k.world.ofds;
  }

  lemma BothWrite(k: Kernel, fd: int, x: bytes, y: bytes)
    requires Usable(k, fd) && PlainWritable(k, fd) && x != [] && y != []
    requires |x| + |y| <= IO_MAX && Position(k, fd) + |x| + |y| < TWO63
    ensures var (k1, r1) := Sys(k, Write(fd, x));
            var (k2, r2) := Sys(k1, Write(fd, y));
            var (k3, r3) := Sys(k, Write(fd, x + y));
            k2 == k3 && r1 == Int(|x|) && r2 == Int(|y|) && r3 == Int(|x| + |y|)
  {
    var now := Splice(Contents(k, fd), Position(k, fd), x);
    WriteIs(k, fd, x);
    WriteIs(WithFile(k, fd, now, Position(k, fd) + |x|), fd, y);
    WriteIs(k, fd, x + y);
    SplicedTwice(k, fd, x, y);
  }

  lemma SplicedTwice(k: Kernel, fd: int, x: bytes, y: bytes)
    requires Usable(k, fd)
    ensures var was, at := Contents(k, fd), Position(k, fd);
            var now := Splice(was, at, x);
            WithFile(WithFile(k, fd, now, at + |x|), fd, Splice(now, at + |x|, y), at + |x| + |y|)
            == WithFile(k, fd, Splice(was, at, x + y), at + |x + y|)
  {
    var was, at := Contents(k, fd), Position(k, fd);
    var now := Splice(was, at, x);
    WithFileTwice(k, fd, now, at + |x|, Splice(now, at + |x|, y), at + |x| + |y|);
    SplicesAddUp(was, at, x, y);
  }

  /** A write changes the bytes it covers and no others, and moves the file on; a gap
      in front of it reads as zeros. */
  lemma WriteStores(k: Kernel, fd: int, x: bytes)
    requires Usable(k, fd) && PlainWritable(k, fd) && x != []
    requires |x| <= IO_MAX && Position(k, fd) + |x| < TWO63
    ensures var at, was := Position(k, fd), Contents(k, fd);
            var (k', r) := Sys(k, Write(fd, x));
            && r == Int(|x|) && Position(k', fd) == at + |x|
            && var now := Contents(k', fd);
               && |now| == Max(|was|, at + |x|)
               && (forall i :: 0 <= i < |now| ==>
                     now[i] == if at <= i < at + |x| then x[i - at] else if i < |was| then was[i] else 0)
               && (forall ino :: ino in k.world.inodes && ino != Description(k, fd).ino ==>
                     k'.world.inodes[ino] == k.world.inodes[ino])
  {
    assert x[..|x|] == x;
  }

  /** One call writes at most 0x7fff_f000 bytes, the first ones. */
  lemma WriteIsCapped(k: Kernel, fd: int, x: bytes)
    requires Usable(k, fd) && 0x7fff_f000 <= |x| < TWO64
    ensures Sys(k, Write(fd, x)) == Sys(k, Write(fd, x[..0x7fff_f000]))
  {
    assert x[..IO_MAX][..IO_MAX] == x[..IO_MAX];
  }

  /** With O_APPEND a write lands at the end, wherever the file's position is. */
  lemma AppendLandsAtEnd(k: Kernel, fd: int, x: bytes)
    requires Usable(k, fd) && x != [] && |x| <= IO_MAX && |Contents(k, fd)| + |x| < TWO63
    requires var flags := Description(k, fd).flags; (Bit(flags, 1) || Bit(flags, 2)) && Bit(flags, 0x400)
    ensures var (k', r) := Sys(k, Write(fd, x));
            && r == Int(|x|) && Contents(k', fd) == Contents(k, fd) + x
            && Position(k', fd) == |Contents(k', fd)|
  {
    assert x[..|x|] == x;
  }

  /** A file open for reading only can be neither written nor resized. */
  lemma ReadOnlyStays(k: Kernel, fd: int, x: bytes, length: int)
    requires Usable(k, fd) && !Bit(Description(k, fd).flags, 1) && !Bit(Description(k, fd).flags, 2)
    requires |x| < TWO64 && IsInt64(length)
    ensures Sys(k, Write(fd, x)) == (k, Int(-1)) && Sys(k, Ftruncate(fd, length)) == (k, Int(-1))
  {
  }

  // ---- positions and lengths ----

  /** SEEK_SET, SEEK_CUR and SEEK_END are 0, 1 and 2, and count from the start, the
      position and the end. A target that is negative or too large fails, and so does
      any other `whence`. */
  lemma SeekGoes(k: Kernel, fd: int, offset: int, whence: int)
    requires Usable(k, fd) && IsInt64(offset) && IsInt32(whence)
    ensures var (k', r) := Sys(k, Lseek(fd, offset, whence));
            var origin := if whence == 0 then 0 else if whence == 1 then Position(k, fd) else |Contents(k, fd)|;
            && (Num(r) >= 0 <==> whence in {0, 1, 2} && 0 <= origin + offset < TWO63)
            && (Num(r) >= 0 ==>
                  && r == Int(origin + offset) && Position(k', fd) == origin + offset
                  && Contents(k', fd) == Contents(k, fd))
  {
  }

  /** `ftruncate` gives the length asked for, keeps what fits and fills up with
      zeros; the position stays. */
  lemma FtruncateResizes(k: Kernel, fd: int, length: nat)
    requires Usable(k, fd) && length < TWO63
    requires Bit(Description(k, fd).flags, 1) || Bit(Description(k, fd).flags, 2)
    ensures var (k', r) := Sys(k, Ftruncate(fd, length));
            && r == Int(0) && Position(k', fd) == Position(k, fd)
            && Sys(k', Lseek(fd, 0, 2)).1 == Int(length)
            && Resized(Contents(k, fd), Contents(k', fd), length)
  {
  }

  /** `fsync` and `fstat` change nothing. */
  lemma SyncAndStatOnlyLook(k: Kernel, fd: int)
    requires Usable(k, fd)
    ensures Sys(k, Fsync(fd)) == (k, Int(0))
    ensures Sys(k, Fstat(fd)).0 == k && Num(Sys(k, Fstat(fd)).1) == 0
  {
  }

  // ---- a well-formed world ----

  /** Names lead to inodes, open file descriptions too, and numbers to be given out
      are not in use. */
  predicate WorldOk(w: World) {
    && (forall name :: name in w.names ==> w.names[name] in w.inodes)
    && (forall o :: o in w.ofds ==> w.ofds[o].ino in w.inodes && IsInt32(w.ofds[o].flags) && o < w.nextOfd)
    && (forall ino :: ino in w.inodes ==> ino < w.nextIno)
  }

  lemma SysKeepsWorldOk(k: Kernel, c: Call, room: bool)
    requires WorldOk(k.world) && ArgsOk(c)
    ensures WorldOk(SysWith(k, c, room).0.world)
  {
    if HasFd(c) {
      if c.fd in k.table && k.table[c.fd].File? {
        FileCallKeepsWorldOk(k.world, k.table[c.fd].ofd, c);
      }
    } else if !c.Open? {
      PathCallKeepsWorldOk(k.world, c);
    }
  }

  lemma FileCallKeepsWorldOk(w: World, o: nat, c: Call)
    requires WorldOk(w) && HasFd(c) && ArgsOk(c)
    ensures WorldOk(FileCall(w, o, c).0)
  {
  }

  lemma PathCallKeepsWorldOk(w: World, c: Call)
    requires WorldOk(w) && !HasFd(c) && !c.Open? && ArgsOk(c)
    ensures WorldOk(PathCall(w, c).0)
  {
  }

  // ---- open and close ----

  /** What `open` does if it succeeds: the lowest free number, a file that stands at
      its start, and no other descriptor or name touched. */
  predicate OpensAt(k: Kernel, k': Kernel, fd: int, path: bytes, flags: int) {
    && fd == LowestFree(k) && k'.table.Keys == k.table.Keys + {fd}
    && Usable(k', fd) && Position(k', fd) == 0 && Description(k', fd).flags == flags
    && path in k'.world.names && k'.world.names[path] == Description(k', fd).ino
    && (forall g :: g in k.table ==> k'.table[g] == k.table[g])
    && (forall name :: name in k.world.names ==> name in k'.world.names && k'.world.names[name] == k.world.names[name])
    && (forall o :: o in k.world.ofds ==> o in k'.world.ofds && k'.world.ofds[o] == k.world.ofds[o])
  }

  /** An existing file: it is emptied if and only if O_TRUNC is given with write
      access, and refused if and only if O_CREAT comes with O_EXCL. */
  lemma OpenExisting(k: Kernel, path: bytes, flags: int, mode: Option<nat>)
    requires WorldOk(k.world) && ArgsOk(Open(path, flags, mode))
    requires path in k.world.names && LowestFree(k) < k.limit
    ensures var (k', r) := Sys(k, Open(path, flags, mode));
            && (Num(r) >= 0 <==> !(Bit(flags, 0x40) && Bit(flags, 0x80)))
            && (Num(r) >= 0 ==>
                  && OpensAt(k, k', Num(r), path, flags) && k'.world.names == k.world.names
                  && var was := k.world.inodes[k.world.names[path]].data;
                     Contents(k', Num(r)) == if Bit(flags, 0x200) && (Bit(flags, 1) || Bit(flags, 2)) then [] else was)
  {
  }

  /** A missing one: it is made, empty and with the mode given, if and only if O_CREAT
      is given and the path is not empty; no other file changes. */
  lemma OpenMissing(k: Kernel, path: bytes, flags: int, mode: Option<nat>)
    requires WorldOk(k.world) && ArgsOk(Open(path, flags, mode))
    requires path !in k.world.names && LowestFree(k) < k.limit
    ensures var (k', r) := Sys(k, Open(path, flags, mode));
            && (Num(r) >= 0 <==> Bit(flags, 0x40) && path != [])
            && (Num(r) >= 0 ==>
                  && OpensAt(k, k', Num(r), path, flags) && Contents(k', Num(r)) == []
                  && k'.world.inodes[k'.world.names[path]].mode == (if mode.Some? then mode.value else 0)
                  && k'.world.names.Keys == k.world.names.Keys + {path}
                  && forall ino :: ino in k.world.inodes ==>
                       && ino in k'.world.inodes && k'.world.inodes[ino] == k.world.inodes[ino]
                       && ino != k'.world.names[path])
  {
  }

  lemma OpenNeedsRoom(k: Kernel, path: bytes, flags: int, mode: Option<nat>)
    requires ArgsOk(Open(path, flags, mode)) && LowestFree(k) >= k.limit
    ensures Sys(k, Open(path, flags, mode)) == (k, Int(-1))
  {
  }

  /** What is open is closed, once, and nothing else is. */
  lemma CloseCloses(k: Kernel, fd: int)
    requires FilesOk(k) && fd in k.table
    ensures var (k', r) := Sys(k, Close(fd));
            && r == Int(0) && k'.table == k.table - {fd}
            && Sys(k', Close(fd)) == (k', Int(-1))
            && k'.world.names == k.world.names && k'.world.inodes == k.world.inodes
            && forall g :: g != fd && Usable(k, g) ==>
                 Usable(k', g) && Description(k', g) == Description(k, g) && Contents(k', g) == Contents(k, g)
  {
  }

  // ---- names ----

  /** A name leads to the same file as before. */
  predicate SameName(k: Kernel, k': Kernel, name: bytes)
    requires NulFree(name)
  {
    Sys(k', Stat(name)).1 == Sys(k, Stat(name)).1
  }

  /** Every open file reads, and stands, as before. */
  ghost predicate SameOpenFiles(k: Kernel, k': Kernel) {
    && k'.table == k.table && k'.world.ofds == k.world.ofds
    && forall fd :: Usable(k, fd) ==> Usable(k', fd) && Contents(k', fd) == Contents(k, fd)
  }

  /** A file open under a name is the file of that name. */
  lemma StatIsFstat(k: Kernel, path: bytes, fd: int)
    requires NulFree(path) && Usable(k, fd)
    requires path in k.world.names && k.world.names[path] == Description(k, fd).ino
    ensures Sys(k, Stat(path)).1 == Sys(k, Fstat(fd)).1 && Num(Sys(k, Stat(path)).1) == 0
    ensures Sys(k, Stat(path)).0 == k
  {
  }

  /** `fstat` tells files and lengths apart. */
  lemma StatTells(k: Kernel, fd: int, fd': int)
    requires Usable(k, fd) && Usable(k, fd') && Sys(k, Fstat(fd)).1 == Sys(k, Fstat(fd')).1
    requires |Contents(k, fd)| < TWO64 && |Contents(k, fd')| < TWO64
    requires Description(k, fd).ino < TWO64 && Description(k, fd').ino < TWO64
    ensures |Contents(k, fd)| == |Contents(k, fd')| && Description(k, fd).ino == Description(k, fd').ino
  {
    StatFields(Description(k, fd).ino, k.world.inodes[Description(k, fd).ino]);
    StatFields(Description(k, fd').ino, k.world.inodes[Description(k, fd').ino]);
  }

  lemma StatFields(ino: nat, node: Inode)
    requires ino < TWO64 && |node.data| < TWO64
    ensures FromLittle(StatBytes(ino, node)[..8]) == ino
    ensures FromLittle(StatBytes(ino, node)[12..20]) == |node.data|
  {
    assert StatBytes(ino, node)[..8] == U64(ino);
    assert StatBytes(ino, node)[12..20] == U64(|node.data|);
    U64RoundTrip(ino);
    U64RoundTrip(|node.data|);
  }

  /** `rename` moves the file: what was `a` is `b`, and what `b` was is gone. No other
      name, and no open file, sees anything of it. */
  lemma RenameMoves(k: Kernel, a: bytes, b: bytes)
    requires WorldOk(k.world) && NulFree(a) && NulFree(b)
    ensures var (k', r) := Sys(k, Rename(a, b));
            && (Num(r) == 0 <==> a in k.world.names && b != [])
            && (Num(r) != 0 ==> Num(r) == -1 && k' == k)
            && (Num(r) == 0 ==>
                  && SameOpenFiles(k, k')
                  && Num(Sys(k, Stat(a)).1) == 0 && Sys(k', Stat(b)).1 == Sys(k, Stat(a)).1
                  && (a != b ==> Num(Sys(k', Stat(a)).1) == -1)
                  && (a == b ==> k' == k)
                  && forall name :: NulFree(name) && name != a && name != b ==> SameName(k, k', name))
  {
    assert a in k.world.names && a == b ==> (k.world.names - {a})[b := k.world.names[a]] == k.world.names;
  }

  /** `unlink` takes the name away. A file open under it can still be used. */
  lemma UnlinkRemoves(k: Kernel, path: bytes)
    requires WorldOk(k.world) && NulFree(path)
    ensures var (k', r) := Sys(k, Unlink(path));
            && (Num(r) == 0 <==> path in k.world.names)
            && (Num(r) != 0 ==> Num(r) == -1 && k' == k)
            && Num(Sys(k', Stat(path)).1) == -1
            && SameOpenFiles(k, k')
            && forall name :: NulFree(name) && name != path ==> SameName(k, k', name)
  {
  }

  /** `truncate` resizes the file of that name, as whoever has it open sees; their
      positions, and other files, stay. */
  lemma TruncateResizes(k: Kernel, path: bytes, length: int)
    requires WorldOk(k.world) && NulFree(path) && IsInt64(length)
    ensures var (k', r) := Sys(k, Truncate(path, length));
            && (Num(r) == 0 <==> path in k.world.names && length >= 0)
            && (Num(r) != 0 ==> Num(r) == -1 && k' == k)
            && k'.table == k.table && k'.world.ofds == k.world.ofds && k'.world.names == k.world.names
            && (Num(r) == 0 ==>
                  forall fd :: Usable(k, fd) ==>
                    Usable(k', fd) && Resized(Contents(k, fd), Contents(k', fd),
                      if Description(k, fd).ino == k.world.names[path] then length else |Contents(k, fd)|))
  {
  }

  /** `now` is `was`, cut to `length` or filled up with zeros. */
  predicate Resized(was: bytes, now: bytes, length: nat) {
    |now| == length && forall i :: 0 <= i < length ==> now[i] == if i < |was| then was[i] else 0
  }

  /** What is written through one descriptor is read through another of the same
      file, opened apart: they share the file and not the position. */
  lemma WrittenHereReadThere(k: Kernel, fd: int, other: int, x: bytes)
    requires Usable(k, fd) && PlainWritable(k, fd) && Usable(k, other) && k.table[fd] != k.table[other]
    requires Description(k, fd).ino == Description(k, other).ino && Position(k, fd) == Position(k, other)
    requires !Bit(Description(k, other).flags, 1)
    requires x != [] && |x| <= IO_MAX && Position(k, fd) + |x| < TWO63
    ensures Sys(Sys(k, Write(fd, x)).0, Read(other, |x|)).1 == Data(|x|, x)
  {
    WriteIs(k, fd, x);
    SpliceStores(Contents(k, fd), Position(k, fd), x);
  }
}
