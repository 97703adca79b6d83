/** Memory and sockets on every path of the handler and the stubs, each failure of
    the environment included: nothing is freed twice, and what is left behind. */
module Ownership {
  import opened CData
  import opened Kernel

  /** A process's heap blocks. `free` may only be given a live block, or NULL. */
  class Heap {
    var live: set<nat>
    var next: nat

    ghost predicate Valid()
      reads this
    {
      forall p :: p in live ==> p < next
    }

    constructor ()
      ensures Valid() && live == {}
    {
      live, next := {}, 0;
    }

    method Malloc(fails: bool) returns (p: Option<nat>)
      requires Valid()
      modifies this
      ensures Valid()
      ensures if fails then p.None? && live == old(live)
              else p.Some? && p.value !in old(live) && live == old(live) + {p.value}
    {
      if fails {
        return None;
      }
      p := Some(next);
      live, next := live + {next}, next + 1;
    }

    method Free(p: Option<nat>)
      requires Valid() && (p.Some? ==> p.value in live)
      modifies this
      ensures Valid() && live == if p.Some? then old(live) - {p.value} else old(live)
    {
      if p.Some? {
        live := live - {p.value};
      }
    }
  }

  // ---- the handler ----

  datatype HandlerFaults = HandlerFaults(buf: bool, reply: bool, send: bool, shutdown: bool, close: bool)

  /** READ, WRITE, STAT and FSTAT allocate a buffer before they run the call. */
  predicate TakesBuffer(code: byte) {
    code == 2 || code == 3 || code == 7 || code == 8
  }

  predicate Served(code: byte, f: HandlerFaults) {
    code < 12 && !(TakesBuffer(code) && f.buf) && !f.reply
  }

  /** Whatever fails, the handler frees exactly the payload it was handed and its own
      blocks, once each. It closes its client's socket if and only if all went well:
      on every other path the socket stays open. */
  method ClientHandler(heap: Heap, payload: nat, code: byte, f: HandlerFaults) returns (sent: bool, closed: bool)
    requires heap.Valid() && payload in heap.live
    modifies heap
    ensures heap.Valid() && heap.live == old(heap.live) - {payload}
    ensures sent <==> Served(code, f) && !f.send
    ensures closed <==> sent && !f.shutdown && !f.close
  {
    var reply, buf, statbuf := None, None, None;
    sent, closed := false, false;
    var ok := code < 12;
    if code == 2 || code == 3 {
      buf := heap.Malloc(f.buf);
      ok := buf.Some?;
    } else if code == 7 || code == 8 {
      statbuf := heap.Malloc(f.buf);
      ok := statbuf.Some?;
    }
    if ok {
      reply := heap.Malloc(f.reply);
      if reply.Some? {
        sent := !f.send;
        closed := sent && !f.shutdown && !f.close;
      }
    }
    heap.Free(reply);
    heap.Free(buf);
    heap.Free(statbuf);
    heap.Free(Some(payload));
  }

  // ---- the stubs ----

  /** Where a stub keeps its request and reply: OnHeap for open, write, truncate,
      stat, rename and unlink (the request is malloc'd), OnStack for close, lseek,
      ftruncate, fstat and fsync, ReplyOnHeap for read. */
  datatype Shape = OnHeap | OnStack | ReplyOnHeap

  /** `option` and `connect` fail after the socket is made. `close` is the one close
      of the socket that a path reaches, if it reaches any. */
  datatype StubFaults = StubFaults(
    request: bool, socket: bool, option: bool, connect: bool, send: bool, reply: bool, recv: bool, close: bool)

  predicate Connects(f: StubFaults, room: bool) {
    room && !f.socket && !f.option && !f.connect && !f.send
  }

  /** The request went out: nothing before the reply failed. */
  predicate Sends(shape: Shape, f: StubFaults, room: bool) {
    !(shape.OnHeap? && f.request) && Connects(f, room)
  }

  /** `read` cannot allocate the reply, and returns without closing the socket. */
  predicate GivesUp(shape: Shape, f: StubFaults, room: bool) {
    Sends(shape, f, room) && shape.ReplyOnHeap? && f.reply
  }

  /** The two ways to leave a socket open, once there is one: `read` gives up, or the
      close fails, be it after the reply or after another failure. */
  predicate Leaves(shape: Shape, f: StubFaults, room: bool) {
    && !(shape.OnHeap? && f.request) && room && !f.socket
    && (GivesUp(shape, f, room) || f.close)
  }

  /** The client process: its heap, its kernel, and the stubs' static `sock`. */
  class Client {
    const heap: Heap
    var kernel: Kernel
    var sock: int

    constructor (heap: Heap, kernel: Kernel)
      ensures this.heap == heap && this.kernel == kernel
    {
      this.heap, this.kernel, this.sock := heap, kernel, 0;
    }

    method RealClose(fails: bool)
      modifies this`kernel
      ensures kernel == if fails then old(kernel) else Remove(old(kernel), sock)
    {
      if !fails {
        kernel := Remove(kernel, sock);
      }
    }

    /** On success one more descriptor is open. On failure all are as they were, unless
        the socket was made and its close failed too: then it is left. */
    method SendData(conn: nat, f: StubFaults) returns (ok: bool)
      modifies this
      ensures ok <==> Connects(f, HasRoom(old(kernel)))
      ensures kernel == if ok || (HasRoom(old(kernel)) && !f.socket && f.close) then Insert(old(kernel), Sock(conn))
                        else old(kernel)
      ensures ok ==> sock == LowestFree(old(kernel))
    {
      if f.socket || !HasRoom(kernel) {
        return false;
      }
      sock := LowestFree(kernel);
      kernel := Insert(kernel, Sock(conn));
      if f.option || f.connect || f.send {
        RealClose(f.close);
        assert Remove(Insert(old(kernel), Sock(conn)), sock).table == old(kernel).table;
        return false;
      }
      return true;
    }

    /** Whether the receive fails or not, the socket is gone if and only if its close
        succeeds. */
    method RecvData(f: StubFaults) returns (ok: bool)
      modifies this`kernel
      ensures ok <==> !f.recv && !f.close
      ensures kernel == if f.close then old(kernel) else Remove(old(kernel), sock)
    {
      if f.recv {
        RealClose(f.close);
        return false;
      }
      RealClose(f.close);
      return !f.close;
    }

    /** A remote call by any stub. Its heap is as before on every path. Its kernel is
        as before unless a socket is left open; then the number the next local `open`
        would have got is taken. */
    method RemoteCall(shape: Shape, conn: nat, f: StubFaults) returns (ok: bool)
      requires heap.Valid()
      modifies this, heap
      ensures heap.Valid() && heap.live == old(heap.live)
      ensures ok <==> Sends(shape, f, HasRoom(old(kernel))) && !(shape.ReplyOnHeap? && f.reply) && !f.recv && !f.close
      ensures kernel == old(kernel) <==> !Leaves(shape, f, HasRoom(old(kernel)))
      ensures Leaves(shape, f, HasRoom(old(kernel))) ==>
                kernel == Insert(old(kernel), Sock(conn)) && LowestFree(kernel) != LowestFree(old(kernel))
    {
      ok := false;
      var request, reply := None, None;
      if shape.OnHeap? {
        request := heap.Malloc(f.request);
        if request.None? {
          return;
        }
      }
      var sent := SendData(conn, f);
      if sent {
        if shape.ReplyOnHeap? {
          reply := heap.Malloc(f.reply);
        }
        if !shape.ReplyOnHeap? || reply.Some? {
          ok := RecvData(f);
          assert Remove(Insert(old(kernel), Sock(conn)), LowestFree(old(kernel))).table == old(kernel).table;
        }
      }
      heap.Free(reply);
      heap.Free(request);
      assert LowestFree(old(kernel)) !in old(kernel).table;
    }
  }
}
