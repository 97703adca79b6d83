/** The other ends of the wire: the handler taking a payload apart and building a
    reply, and the `read` stub copying a reply into its caller's buffer. */
module Unmarshal {
  import opened CData
  import opened Calls
  import opened Wire
  import opened Marshal

  /** from + strlen(p + from), or the end of the payload if no NUL is in it. */
  method StringEnd(p: array<byte>, from: nat) returns (end: nat)
    requires from <= p.Length
    ensures end == FirstNul(p[..], from)
  {
    end := from;
    while end < p.Length && p[end] != 0
      invariant from <= end <= p.Length
      invariant FirstNul(p[..], from) == FirstNul(p[..], end)
    {
      end := end + 1;
    }
  }

  method UnmarshalOpen(p: array<byte>) returns (d: Decoded)
    requires p.Length > 0
    ensures d == DecodeOpen(p[..])
  {
    var end := StringEnd(p, 1);
    if end + 5 > p.Length {
      return OutOfBounds;
    }
    var oflag := ToI32(p[end + 1..end + 5]);
    assert p[..][end + 1..end + 5] == p[end + 1..end + 5] && p[..][1..end] == p[1..end];
    if oflag == O_CREAT {
      if end + 9 > p.Length {
        return OutOfBounds;
      }
      var mode := FromLittle(p[end + 5..end + 9]);
      assert p[..][end + 5..end + 9] == p[end + 5..end + 9];
      return Ok(Open(p[1..end], oflag, Some(mode)));
    }
    return Ok(Open(p[1..end], oflag, None));
  }

  /** The count is at the end of the payload; the data in front of it is copied
      into a fresh buffer that is exactly large enough. */
  method UnmarshalWrite(p: array<byte>) returns (d: Decoded)
    requires p.Length > 0
    ensures d == DecodeWrite(p[..])
  {
    if p.Length < 13 {
      return OutOfBounds;
    }
    var fildes := ToI32(p[1..5]);
    var nbyte := FromLittle(p[p.Length - 8..]);
    assert p[..][p.Length - 8..] == p[p.Length - 8..] && p[..][1..5] == p[1..5];
    if nbyte > p.Length - 13 {
      return OutOfBounds;
    }
    var buf := new byte[p.Length - 1 - 4 - 8];
    var i := 0;
    while i < nbyte
      invariant 0 <= i <= nbyte
      invariant buf[..i] == p[5..5 + i]
    {
      buf[i] := p[5 + i];
      i := i + 1;
    }
    assert p[..][5..5 + nbyte] == p[5..5 + nbyte];
    return Ok(Write(fildes, buf[..nbyte]));
  }

  method UnmarshalTruncate(p: array<byte>) returns (d: Decoded)
    requires p.Length > 0
    ensures d == DecodeTruncate(p[..])
  {
    var end := StringEnd(p, 1);
    if end + 9 > p.Length {
      return OutOfBounds;
    }
    assert p[..][end + 1..end + 9] == p[end + 1..end + 9] && p[..][1..end] == p[1..end];
    return Ok(Truncate(p[1..end], ToI64(p[end + 1..end + 9])));
  }

  /** The new path starts behind the old one's NUL. */
  method UnmarshalRename(p: array<byte>) returns (d: Decoded)
    requires p.Length > 0
    ensures d == DecodeRename(p[..])
  {
    var end := StringEnd(p, 1);
    if end == p.Length {
      return OutOfBounds;
    }
    var end' := StringEnd(p, end + 1);
    if end' == p.Length {
      return OutOfBounds;
    }
    assert p[..][1..end] == p[1..end] && p[..][end + 1..end'] == p[end + 1..end'];
    return Ok(Rename(p[1..end], p[end + 1..end']));
  }

  method UnmarshalPath(p: array<byte>, unlink: bool) returns (d: Decoded)
    requires p.Length > 0
    ensures d == DecodePath(p[..], if unlink then (s: bytes) => Unlink(s) else (s: bytes) => Stat(s))
  {
    var end := StringEnd(p, 1);
    if end == p.Length {
      return OutOfBounds;
    }
    assert p[..][1..end] == p[1..end];
    return Ok(if unlink then Unlink(p[1..end]) else Stat(p[1..end]));
  }

  /** The calls whose arguments have fixed places. */
  method UnmarshalFixed(p: array<byte>) returns (d: Decoded)
    requires p.Length > 0 && p[0] in {1, 2, 4, 6, 8, 9}
    ensures d == Decode(p[..])
  {
    ghost var b := p[..];
    var code := p[0];
    var needed := if code == 4 then 17 else if code == 2 || code == 6 then 13 else 5;
    if p.Length < needed {
      return OutOfBounds;
    }
    var fildes := ToI32(p[1..5]);
    assert b[1..5] == p[1..5];
    if code == 1 {
      return Ok(Close(fildes));
    } else if code == 8 {
      return Ok(Fstat(fildes));
    } else if code == 9 {
      return Ok(Fsync(fildes));
    }
    assert b[5..13] == p[5..13];
    if code == 2 {
      return Ok(Read(fildes, FromLittle(p[5..13])));
    } else if code == 6 {
      return Ok(Ftruncate(fildes, ToI64(p[5..13])));
    }
    assert b[13..17] == p[13..17];
    return Ok(Lseek(fildes, ToI64(p[5..13]), ToI32(p[13..17])));
  }

  /** The handler's switch. */
  method Unmarshal(p: array<byte>) returns (d: Decoded)
    ensures d == Decode(p[..])
  {
    if p.Length == 0 {
      return OutOfBounds;
    }
    var code := p[0];
    if code == 0 {
      d := UnmarshalOpen(p);
    } else if code == 3 {
      d := UnmarshalWrite(p);
    } else if code == 5 {
      d := UnmarshalTruncate(p);
    } else if code == 7 || code == 11 {
      d := UnmarshalPath(p, code == 11);
    } else if code == 10 {
      d := UnmarshalRename(p);
    } else if code < 12 {
      d := UnmarshalFixed(p);
    } else {
      d := Unsupported;
    }
  }

  // ---- replies ----

  /** The reply to `read`: the result, then the whole of the handler's buffer. */
  method MarshalReadReply(fd: int, n: int, contents: bytes, ghost data: bytes, ghost junk: bytes)
    returns (buf: Buffer)
    requires RetFits(Read(fd, |contents|), Data(n, data)) && contents == data + junk
    ensures buf.Holds(Reply(Read(fd, |contents|), Data(n, data), junk))
  {
    buf := new Buffer(8 + |contents|);
    buf.Copy(0, I64(n));
    buf.Copy(8, contents);
    assert I64(n) + contents == I64(n) + data + junk;
    buf.Complete(Reply(Read(fd, |contents|), Data(n, data), junk));
  }

  /** The reply to `stat` and `fstat`. */
  method MarshalStatReply(c: Call, err: int, contents: bytes, ghost info: bytes, ghost junk: bytes)
    returns (buf: Buffer)
    requires (c.Stat? || c.Fstat?) && RetFits(c, Info(err, info))
    requires |contents| == SIZEOF_STAT && contents == info + junk
    ensures buf.Holds(Reply(c, Info(err, info), junk))
  {
    buf := new Buffer(4 + SIZEOF_STAT);
    buf.Copy(0, I32(err));
    buf.Copy(4, contents);
    StatReply(c, err, info, junk);
    buf.Complete(I32(err) + contents);
  }

  lemma StatReply(c: Call, err: int, info: bytes, junk: bytes)
    requires (c.Stat? || c.Fstat?) && RetFits(c, Info(err, info)) && |info + junk| == SIZEOF_STAT
    ensures |junk| == JunkLength(c, Info(err, info))
    ensures Reply(c, Info(err, info), junk) == I32(err) + (info + junk)
  {
    assert I32(err) + info + junk == I32(err) + (info + junk);
  }

  /** The `read` stub's last step. The caller's buffer receives the file's bytes and
      nothing past `nbyte` changes. But all `nbyte` bytes are overwritten, past the
      count with what the server's buffer happened to hold; ReadLeavesRestIff says
      when the buffer is sure to be as a direct `read` leaves it. */
  method TakeReadReply(reply: array<byte>, buf: array<byte>, fd: int, nbyte: nat, ghost data: bytes, ghost junk: bytes)
    returns (ioRetval: int)
    requires reply != buf && nbyte <= buf.Length && |data| <= nbyte && |junk| == nbyte - |data|
    requires exists n :: RetFits(Read(fd, nbyte), Data(n, data))
                         && reply[..] == Reply(Read(fd, nbyte), Data(n, data), junk)
    modifies buf
    ensures Extract(Read(fd, nbyte), reply[..]) == Data(ioRetval, data)
    ensures buf[..|data|] == data && buf[nbyte..] == old(buf[nbyte..])
    ensures buf[..] == AfterRead(old(buf[..]), nbyte, data, junk)
  {
    ghost var n :| RetFits(Read(fd, nbyte), Data(n, data)) && reply[..] == Reply(Read(fd, nbyte), Data(n, data), junk);
    ReplyRoundTrip(Read(fd, nbyte), Data(n, data), junk);
    ioRetval := ToI64(reply[..8]);
    assert reply[..][..8] == reply[..8];
    ghost var was := buf[..];
    var i := 0;
    while i < nbyte
      invariant 0 <= i <= nbyte
      invariant forall j :: 0 <= j < i ==> buf[j] == reply[8 + j]
      invariant forall j :: i <= j < buf.Length ==> buf[j] == was[j]
    {
      buf[i] := reply[8 + i];
      i := i + 1;
    }
    ReadTail(reply[..], I64(n), data, junk, nbyte, was, buf[..]);
  }

  /** The caller's buffer after a remote `read`, and after a direct one. */
  function AfterRead(was: bytes, nbyte: nat, data: bytes, junk: bytes): (now: bytes)
    requires |data| + |junk| == nbyte <= |was|
    ensures |now| == |was| && now[..|data|] == data && now[nbyte..] == was[nbyte..]
  {
    data + junk + was[nbyte..]
  }

  function AfterDirectRead(was: bytes, data: bytes): (now: bytes)
    requires |data| <= |was|
    ensures |now| == |was| && now[..|data|] == data
  {
    data + was[|data|..]
  }

  /** Whatever the server's uninitialised bytes are, the caller's buffer is as a
      direct `read` leaves it, if and only if the file gave all it was asked for. */
  lemma ReadLeavesRestIff(was: bytes, nbyte: nat, data: bytes)
    requires |data| <= nbyte <= |was|
    ensures (forall junk: bytes :: |junk| == nbyte - |data| ==>
               AfterRead(was, nbyte, data, junk) == AfterDirectRead(was, data))
            <==> |data| == nbyte
  {
    if |data| < nbyte {
      var other: byte := if was[|data|] == 0 then 1 else 0;
      var junk := seq(nbyte - |data|, i => other);
      assert AfterRead(was, nbyte, data, junk)[|data|] == other;
      assert AfterDirectRead(was, data)[|data|] == was[|data|];
    }
  }

  /** What the copy left behind, as sequences. */
  lemma ReadTail(reply: bytes, head: bytes, data: bytes, junk: bytes, nbyte: nat, was: bytes, now: bytes)
    requires |head| == 8 && reply == head + data + junk && |data| + |junk| == nbyte <= |was| == |now|
    requires forall j :: 0 <= j < nbyte ==> now[j] == reply[8 + j]
    requires forall j :: nbyte <= j < |was| ==> now[j] == was[j]
    ensures now == AfterRead(was, nbyte, data, junk)
  {
  }
}
