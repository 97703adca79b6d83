# Remote file calls: a verified model

A shared library hooks twelve C library calls (`open`, `close`, `read`, `write`, `lseek`, `truncate`,
`ftruncate`, `stat`, `fstat`, `fsync`, `rename`, `unlink`). Calls on paths that start with `//`, and on
descriptors above `INT_MAX / 2`, are sent over TCP to a server that runs them on its own files; all
others go to the C library. This project models the hook (`c/rpc_stubs.c`), the C server
(`c/server.c`) and the handle table of the Go server (`go/rpc_server/server.go`), and proves that the
arrangement keeps its promise: a remote call that returns does to files, and reports, what the same call
made directly does, or fails and does nothing.

Where that does not hold, or a program can tell, the exact condition is stated:

- a `read` stub that finds no memory for the reply fails, though the file's offset may have moved
  (`GiveUp.GivenUpTruthfulIff`);
- a call that is outstanding when the server ends for want of a thread returns anything at all
  (`Results.EndsTruthfullyIff`);
- a call whose handler finds no memory never returns (`Progress.HangsIff`, `Progress.CallsReturnIff`);
- `read` may overwrite the buffer behind the bytes it counts (`Unmarshal.ReadLeavesRestIff`);
- descriptor numbers differ, and `errno` is not set.

`dafny verify dfyconfig.toml` checks everything.

## How the model is laid out

- `CData`, `Calls`, `Wire`: C values as bytes (little-endian, LP64), the calls, and the wire protocol as
  functions. `Marshal`, `Unmarshal`: the stubs' and the handler's copies into and out of byte arrays,
  proved to produce and read exactly those bytes.
- `Kernel`: names, inodes, open file descriptions, and a descriptor table shared with sockets, lowest
  free number first. `FileLaws`: what one call sees of another, for both machines alike. `Routing`: the stubs' remote test, and `INT_MAX - fd`.
- `Server`: the server process as a state machine over the accept loop, its handler threads and the
  connections, in any interleaving, down to the three separate reads of the shared `argument` variable.
  `ServerInv`, `ServerSteps`: what every step keeps while one request is outstanding.
- `System`: one client with its own kernel, and the server. `Direct`: the reference machine, which makes
  the same calls on two kernels directly. `Agreement`, `Transparency`: one more call, or one more step,
  keeps the two in agreement. `Results`: the theorems over all runs. `Interference`, `Progress`:
  what remote calls leave behind on the client, and which calls can complete. `Calling`: that any call a
  program may make can be sent, and what a call that cannot be sent returns.
- `Hypotheses`: why one client and live handles are needed. `ManyClients`: exactly when the argument
  handoff works with any number of clients. `GiveUp`: a `read` that fails after its request is sent.
- `Ownership`, `AcceptLoop`: memory, sockets and thread slots on every failure path, as imperative code.
  `GoTable`: the Go server's `files`.

## What is assumed

- Client and server agree on word size and byte order. A send or receive transfers all the bytes asked
  for. `send`, `recv`, `shutdown` and `close` of a socket succeed once a connection exists, as long as the
  server does; before that, a remote call may fail at any time and is then logged as refused. On the server,
  any malloc and any thread creation may fail, and `accept` fails when no descriptor is free. If that ends
  the server with the request unread, the connection is reset, the stub fails, and all later remote calls
  are refused. If it ends for want of a thread, the request has been read, the client's receive reports the
  end of the stream, and the stub takes uninitialised bytes for a reply; `Results.Transparent` and
  `Results.FilesAreLiveHandles` are about runs without that step, the other results about all runs.
  `pthread_join` does not fail, since each thread is joined once (`Results.Slots`).
- One client, single-threaded. It passes arguments in the range of their C types, uses a remote handle
  only between its `open` and its `close`, and does not make up numbers above `INT_MAX / 2`.
- `open` has `O_CREAT` as its only flag or not at all, and a mode exactly with it. The hook tests
  `oflag == O_CREAT` where POSIX tests the bit, so flags such as `O_CREAT | O_RDWR` lose their mode,
  locally and remotely; `Calls.OpenForwardedIntactIff` says when.
- A remote `rename` has two remote paths. The hook tests only the old one and strips two bytes from both;
  `Marshal.RenameTargetKeptIff` says when the handler gets the call the program made, and what
  happens otherwise.
- Descriptor limits are at most 2^30. That the server's table, which its sockets share, had no room for an
  `open` is recorded in the log when it happens, and the direct machine is told.
- `errno` is not transported: results are compared, not error codes.
- Go: each access to the map `files` is one step. The server does not lock it.

History variables (`given`, `holds`, `conn`, `room`, `freed`, `joined`, `job`, `result`) record what
happened; no step's effect on the other variables depends on them, except that the logged outcome
reports `room`.

## Model

| member | source | states |
|---|---|---|
| Calls.OpenForwardedIntactIff | c/rpc_stubs.c:199-249 | an `open` called as POSIX asks keeps its mode if and only if the flags are exactly O_CREAT or lack the bit; O_CREAT with O_RDWR loses it |
| CData.FirstNulFinds | c/server.c:76-77 | `strlen` on a payload finds the whole of a NUL-free string whatever bytes follow it |
| Wire.RoundTrip | c/server.c:71-344 | for all twelve calls and all arguments, the handler decodes from the stub's payload exactly the call the stub forwards, never the unsupported branch |
| Wire.OpenDecodes | c/server.c:76-84 | open's flags and mode are found behind a path of any length, and both sides agree for every flag value whether a mode is there |
| Wire.TruncateDecodes | c/server.c:195-197 | the length is found behind a path of any length |
| Wire.RenameDecodes | c/server.c:305-306 | both paths, back to back, are recovered |
| Wire.WriteDecodes | c/server.c:148-155 | for any data, the trailing count is its length and the copy is the data |
| Wire.PayloadIsLaidOut | c/server.c:71-344 | byte by byte, for all twelve calls: the code is the position in the source's enumeration and each field stands at its offset with its C type's size |
| Wire.ReplyIsLaidOut | c/server.c:133-144 | byte by byte: an 8-byte result for read, write and lseek, a 4-byte one otherwise, then the buffer or the struct stat |
| CData.LittleEndian | c/server.c:78 | four bytes are a number least significant byte first, and as an int in two's complement |
| CData.LittleEndian8 | c/server.c:123 | the same for eight |
| Wire.RequestInjective | c/rpc_stubs.c:219-229 | equal requests come from equal calls |
| Wire.Framing | c/server.c:447-465 | the header is the payload's length, and the two receives split a request with nothing left over |
| Wire.WriteSizeExactIff | c/rpc_stubs.c:362-363 | the size arithmetic of `write` is exact if and only if nbyte is at most 2^64 - 22 |
| Wire.ReplyRoundTrip | c/server.c:133-144 | the reply has the length the stub asks for, and the stub extracts the call's result whatever the uninitialised bytes are |
| Marshal.Buffer.Copy | c/rpc_stubs.c:219-228 | a copy extends what has been written by its source and starts where the last one ended |
| Marshal.MarshalOpen | c/rpc_stubs.c:206-228 | the copies write every byte of the buffer once and leave the request for the call, mode included exactly with O_CREAT |
| Marshal.MarshalClose | c/rpc_stubs.c:268-275 | the same for `close` |
| Marshal.MarshalRead | c/rpc_stubs.c:310-318 | the same for `read` |
| Marshal.MarshalWrite | c/rpc_stubs.c:362-376 | the same for `write`, the count behind data of any length |
| Marshal.MarshalLseek | c/rpc_stubs.c:413-422 | the same for `lseek` |
| Marshal.MarshalTruncate | c/rpc_stubs.c:457-471 | the same for `truncate`, for a path of any length |
| Marshal.MarshalFtruncate | c/rpc_stubs.c:507-515 | the same for `ftruncate` |
| Marshal.MarshalStat | c/rpc_stubs.c:550-563 | the same for `stat` |
| Marshal.MarshalFstat | c/rpc_stubs.c:600-607 | the same for `fstat` |
| Marshal.MarshalFsync | c/rpc_stubs.c:642-649 | the same for `fsync` |
| Marshal.MarshalRename | c/rpc_stubs.c:684-699 | for any target, prefixed or not, the copies fill the buffer with what of the two paths is behind their first two bytes; they overrun it if and only if the target is empty |
| Marshal.RenameTargetKeptIff | c/rpc_stubs.c:682-699 | for all targets, the handler decodes the call the program made if and only if the target has the prefix; an empty target overruns the buffer, a one-byte target has the handler read out of bounds, any other loses two bytes |
| Marshal.MarshalUnlink | c/rpc_stubs.c:736-749 | the same for `unlink` |
| Unmarshal.StringEnd | c/server.c:77 | the scan stops at the first NUL at or behind its start |
| Unmarshal.UnmarshalOpen | c/server.c:76-84 | reading the array gives what the wire protocol's decoding gives, out-of-bounds fields included |
| Unmarshal.UnmarshalWrite | c/server.c:148-155 | the same for WRITE, with the copy loop into a buffer of payload size minus 13 |
| Unmarshal.UnmarshalTruncate | c/server.c:195-197 | the same for TRUNCATE |
| Unmarshal.UnmarshalRename | c/server.c:305-306 | the same for RENAME |
| Unmarshal.UnmarshalPath | c/server.c:233-236 | the same for STAT and UNLINK |
| Unmarshal.UnmarshalFixed | c/server.c:171-176 | the same for the calls whose fields have fixed places |
| Unmarshal.Unmarshal | c/server.c:71-344 | the handler's switch computes the wire protocol's decoding of any payload |
| Unmarshal.MarshalReadReply | c/server.c:133-144 | the handler's copies leave result and buffer, uninitialised part included, as the reply |
| Unmarshal.MarshalStatReply | c/server.c:246-256 | the same for STAT and FSTAT |
| Unmarshal.TakeReadReply | c/rpc_stubs.c:336-338 | the caller gets the result and the file's bytes, all nbyte bytes of the buffer are those of the reply, and nothing past them changes |
| Unmarshal.ReadLeavesRestIff | c/rpc_stubs.c:336-338 | whatever the handler's uninitialised bytes are, the caller's buffer is as a direct read leaves it, if and only if the file gave all nbyte bytes |
| Routing.HandlesSplit | c/server.c:85-87 | `INT_MAX - fd` is self-inverse and overflow-free, and exchanges the lower half of the descriptors with the numbers the stubs route to the server |
| Routing.ServeFits | c/server.c:80-106 | every result fits its C type; open gives -1 or a number the stubs route to the server |
| Routing.ReadBack | c/server.c:119-185 | on one handle, READ returns the bytes one WRITE stored, after LSEEK back to where it began |
| FileLaws.FailureIsMinusOne | c/server.c:106 | every call returns -1 or nothing negative, and -1 only if it has changed nothing |
| FileLaws.ReadsAddUp | c/server.c:131 | two reads give and leave what one read of as many bytes does |
| FileLaws.ReadGivesIff | c/server.c:131 | a read gives the bytes at the file's position, as many as are asked for, there and at most 0x7ffff000, and moves on by them; it fails if and only if the file is write-only |
| FileLaws.WritesAddUp | c/server.c:158 | two writes leave what one write of all the bytes does |
| FileLaws.WriteStores | c/server.c:158 | a write changes the bytes it covers, fills a gap with zeros, and changes nothing else |
| FileLaws.WriteIsCapped | c/server.c:158 | a longer write is the write of its first 0x7ffff000 bytes |
| FileLaws.AppendLandsAtEnd | c/server.c:158 | with O_APPEND a write lands at the end, wherever the position is |
| FileLaws.ReadOnlyStays | c/server.c:158 | a read-only file can be neither written nor resized |
| FileLaws.WrittenHereReadThere | c/server.c:131-158 | what is written through one descriptor is read through another of the same file |
| FileLaws.SeekGoes | c/server.c:179 | whence 0, 1 and 2 count from start, position and end; anything else, and a target out of range, fails |
| FileLaws.FtruncateResizes | c/server.c:220 | the length asked for, what fits kept, the rest zeros, the position unchanged |
| FileLaws.OpenExisting | c/server.c:80-84 | a free lowest number, the file at its start; emptied if and only if O_TRUNC comes with write access, refused if and only if O_CREAT comes with O_EXCL |
| FileLaws.OpenMissing | c/server.c:80-84 | made, empty and with the mode given, if and only if O_CREAT is given; no other file changes |
| FileLaws.CloseCloses | c/server.c:106 | the number is gone, once, and every other descriptor is as before |
| FileLaws.RenameMoves | c/server.c:309 | the file of the old name is that of the new one, the old name is gone, and no other name and no open file notices |
| FileLaws.UnlinkRemoves | c/server.c:328 | the name is gone, other names and all open files are as before |
| FileLaws.TruncateResizes | c/server.c:200 | the file of that name is resized for everyone who has it open, and no other |
| FileLaws.StatIsFstat | c/server.c:244 | a name and a descriptor of one file tell the same |
| FileLaws.StatTells | c/server.c:269 | two files that tell the same are one inode, of one length |
| FileLaws.SysKeepsWorldOk | c/server.c:71-344 | names and open files always lead to inodes, and new numbers are unused |
| Agreement.RemoteEvent | c/server.c:71-344 | a well-behaved remote call run by the handler and the same call made directly give the same result and the same files, and keep handles and files in bijection |
| Agreement.OpenEvent | c/server.c:81-87 | for `open`: both tables gain one entry for one new open file, the handle standing for it |
| Agreement.CloseEvent | c/server.c:103-106 | for `close`: one entry leaves both tables and every other handle keeps its file |
| Agreement.FileEvent | c/server.c:122-131 | for the other six descriptor calls on a live handle |
| Agreement.PathEvent | c/server.c:195-200 | for `truncate`, `stat`, `rename` and `unlink` |
| Agreement.LocalEvent | c/rpc_stubs.c:243-249 | a local call is the same call on the client's kernel and leaves the server alone |
| Agreement.RefusedEvent | c/rpc_stubs.c:126-138 | a remote call that cannot be sent fails and changes nothing on either machine |
| ServerSteps.StepKeeps | c/server.c:440-489 | every step of the loop and the handlers keeps handoff, socket and payload ownership, slots, and the place of the outstanding request, failed accepts, mallocs and thread creations and the loop's exit included |
| ServerSteps.ExecuteKeeps | c/server.c:66-366 | running a decoded call keeps them, provided it touches files only |
| ServerSteps.OthersTouchSockets | c/server.c:346-358 | all other steps leave the files and the record of the call alone |
| Transparency.ServeTouchesFiles | c/server.c:103-106 | a well-behaved remote call on a descriptor names a file, and no socket's entry changes |
| Transparency.ReceivedIsResult | c/rpc_stubs.c:170-184 | the reply the client receives is on its own connection and is what its own call returned |
| Results.Transparent | c/rpc_stubs.c:186-771 | for every run of one client in which no receive meets the end of a stream, and every interleaving, failure and exit of the server, all results, the client's kernel and the server's files are those of direct calls, handles in bijection with open files |
| Results.EndsTruthfullyIff | c/server.c:441-477 | in every run, a call outstanding when the server ends has not run, and whatever the stub's buffer holds it ends in a truthful failure, if and only if the server did not end for want of a thread; if it did, the stub can return what no direct call, run or refused, returns |
| Transparency.ExitSeen | c/rpc_stubs.c:173-183 | when the server has ended, the client sees a reset if the server had a request unread, and the end of the stream, which the stub does not take for an error, if it could create no thread |
| Transparency.ResetKeeps | c/server.c:441-458 | a call outstanding when the server ends has not run: it fails, and both machines are as before it |
| Results.Handoff | c/server.c:65-69 | in every run, each handler copies the payload, size and socket stored for it; until it has replied, they are the request the client waits for and the socket of the connection it waits on |
| Results.RequestsAreFramed | c/server.c:447-465 | in every run, the header in front of the loop gives the length of the rest, the payload in front of it is all there is, and nothing is left on a connection once taken |
| Results.SocketsHaveOneOwner | c/server.c:442-477 | in every run, each socket of the server belongs to the accept loop or to one handler, and is that handler's connection |
| Results.FilesAreLiveHandles | c/server.c:85-106 | between calls, the server's file descriptors are exactly those live handles name |
| Results.NoCallReachesASocket | c/server.c:103-106 | what a handler is about to run is a known call, and its descriptor is a file |
| Results.PayloadsFreedOnce | c/server.c:360-365 | in every run, each payload is allocated and owned or has been freed exactly once, and a handler about to free one still can |
| Results.Slots | c/server.c:440-488 | in every run, with any number of clients and from any state with its slots in order, index below 50 where the loop accepts, at most 50 unjoined threads in consecutive slots, joins in order of creation, once each, after the thread finished, no unjoined thread overwritten |
| Calling.RemoteCallGoesThrough | c/rpc_stubs.c:186-771 | after every run, with the server there and a descriptor free on either side, any remote call a program may make can be sent, run and returned, with the direct call's result |
| Calling.LocalCallRuns | c/rpc_stubs.c:243-249 | a local call can always be made and does what the C library does |
| Calling.PermittedIsWellBehaved | c/rpc_stubs.c:205-267 | what the hook asks of a program, and the test that sends a call to the server, value by value |
| Calling.RefusalFails | c/rpc_stubs.c:354-379 | a call that cannot be sent, or is cut off, returns -1 and no bytes |
| Calling.RefusedCallsFail | c/rpc_stubs.c:126-184 | in every run in which no receive meets the end of a stream, all refused calls have returned -1 |
| Calling.NoBufferIff | c/server.c:126-152 | the first malloc can fail exactly for the codes of READ, WRITE, STAT and FSTAT |
| Interference.RemoteCallsLeaveNoTrace | c/rpc_stubs.c:126-184 | after every run, whatever the server does, the client's kernel, descriptor numbers included, and each local result are what the local calls alone produce |
| Progress.QueuedMoves | c/server.c:479-488 | the join loop never blocks a waiting request for good |
| Progress.CallsReturnIff | c/server.c:346-366 | from every reachable state, a call can get its reply if and only if it has not been given up and, while queued, there is a descriptor for its socket or a handler about to free one; it can return at all if and only if no handler has given it up, and else the client waits for good |
| Progress.HangsIff | c/server.c:89-94 | running a call makes it hang if and only if one of the handler's mallocs fails |
| Progress.CanHang | c/server.c:92-94 | the malloc of the reply can fail for every call about to run |
| Progress.StepsAreBounded | c/server.c:440-489 | from any state, the accept loop and the handlers take at most a stated number of steps until another client connects |
| Progress.CallsMustEnd | c/server.c:440-489 | while a call waits, under every schedule and failure, the server's steps are bounded, and when none is left the call returns or a handler has given it up |
| Progress.DoomedStays | c/server.c:92-94 | no step of the server revives a request that gets no reply |
| Hypotheses.OverlapBreaksHandoff | c/server.c:467-474 | with two clients, whatever they send, one run, written out, gives the first handler the second request's payload, size and socket |
| Hypotheses.CloseHitsItsSocketIff | c/server.c:103-106 | in every state, a handler's `close` of a handle takes its own connection's socket out of the table if and only if the handle names it |
| Hypotheses.StaleCloseHitsItsSocketIff | c/server.c:103-106 | in the run, written out, of a request to close a handle, the call closes the very connection that carries it if and only if the handle names the server's lowest free descriptor |
| ManyClients.CopyRightIff | c/server.c:467-477 | with any clients, in any run in which nothing has gone wrong until a handler completes its copy, the copy is what was stored for it if and only if no other argument was stored between its creation and then |
| ManyClients.ServedInOrder | c/server.c:441-477 | with any clients, up to the first wrong copy, the n-th handler serves the n-th connection |
| ManyClients.StepKeepsOrder | c/server.c:440-489 | with any clients, up to the first wrong copy, handlers keep their own sockets and arguments, and each connection is in one place |
| GiveUp.GivenUpTruthfulIff | c/rpc_stubs.c:324-330 | a `read` that gives up after sending reports a failure, which is what a refused call does to log and files, until the handler runs it; afterwards if and only if the handler found no memory or there was nothing to read |
| Ownership.ClientHandler | c/server.c:346-366 | on every path the handler frees exactly its payload and its own blocks, once each, and closes its socket only when all went well |
| Ownership.Client.SendData | c/rpc_stubs.c:70-138 | a successful send adds the socket; a failed one leaves the descriptor table as it was unless the socket was made and its close failed too |
| Ownership.Client.RecvData | c/rpc_stubs.c:147-161 | whether the receive fails or not, the socket is gone if and only if its close succeeds |
| Ownership.Client.RemoteCall | c/rpc_stubs.c:297-346 | on every path a stub's heap is as before, and its descriptors too, if and only if no socket was made, or it was closed: `read` did not give up and the one close the path reaches, error paths included, did not fail; else the next local number changes |
| AcceptLoop.Loop.Serve | c/server.c:440-489 | after n connections from any state between accepts, the index is the old one plus n modulo 50, all but the last index threads are joined in order, the rest sit in the slots |
| AcceptLoop.Loop.JoinBatch | c/server.c:479-488 | a full batch is joined in order of creation, each thread once |
| GoTable.Receiver.Open | go/rpc_server/server.go:18-34 | the reply is the new descriptor, of a file no Open returned before, and the table, the open descriptors and the handles held stay equal |
| GoTable.Receiver.Close | go/rpc_server/server.go:36-42 | succeeds exactly on a held handle, which it removes, and no other |
| GoTable.Receiver.Find | go/rpc_server/server.go:44-51 | a handle operation works on the open file the handle is held for |
| GoTable.HeldMeansOpened | go/rpc_server/server.go:27-42 | a handle is held if and only if some Open returned it and nothing closed or reopened it since, and it means that file |
| GoTable.StepKeepsTable | go/rpc_server/server.go:27-42 | every step of interleaved Opens and Closes, of unknown handles too, in orderly use, keeps table, open descriptors and pending calls consistent |
| GoTable.SchedulesKeepTable | go/rpc_server/server.go:27-42 | after every orderly schedule, open handles mean their file, and with no call pending the table is what is open |
| GoTable.OperatesOnItsFileIff | go/rpc_server/server.go:44-51 | in every orderly schedule, an operation that looked its file up works on that file if and only if it was open then and no Close has closed it since, and never on another file that got the number |
| GoTable.LookupFindsItsNumber | go/rpc_server/server.go:44-51 | an operation finds what the table has for its number, and no file if it has none, in every state |
| GoTable.NeverAnotherNumber | go/rpc_server/server.go:44-51 | under every orderly schedule, an operation never works on a file with another number than it was asked for |
| GoTable.OpenAlone | go/rpc_server/server.go:27-33 | an uninterrupted Open adds exactly its file |
| GoTable.CloseAlone | go/rpc_server/server.go:36-42 | an uninterrupted Close takes away exactly its file |
| GoTable.StrayCloseAlone | go/rpc_server/server.go:36-42 | an uninterrupted Close of an unknown handle changes nothing |
| GoTable.LookupFindsOpen | go/rpc_server/server.go:44-51 | on a handle that no Close is removing, an operation finds an open file |
| GoTable.LateDeleteIff | go/rpc_server/server.go:36-42 | an Open between another's close and delete leaves the table right if and only if it got a different descriptor |
| GoTable.StrayDeleteIff | go/rpc_server/server.go:36-42 | an Open between an unknown handle's lookup and delete leaves the table right if and only if it got a different number |

## Left out

- Socket setup, environment variables, `dlsym`, signal handling and error printing.
- Partial sends and receives, and failures of `send`, `recv`, `shutdown` or a socket's `close` while the server is there: the interleaved model takes them as not happening. `Ownership` covers what they do to memory and descriptors.
- What a client does after a `read` stub gave up on a request already sent: the request stays outstanding, so the client overlaps with itself as two clients do. `GiveUp` has the step itself and `Ownership` the socket it leaves.
- The end of the server's process closes its descriptors; here its table stays as it was, out of every client's reach, and its handlers may take further steps.
- Freeing memory that a second handler still uses, once two clients have crossed: the model stops at the crossing.
- File permissions, directories, links, file times and the layout of `struct stat`: names are flat, and `stat` returns opaque bytes of fixed length. Reads and writes on a server descriptor that is no file fail in the model.
- Wrap-around of buffer sizes near 2^64 outside `Wire.WriteSizeExactIff`: such buffers do not fit in memory.
- Hooked calls from several threads of one client: `sock` is a static variable.
- Go: a file whose close fails (the model's closes of held handles succeed), and Read's reply, which always has the requested length.
- Reading `argument` while it is being stored: the store is one step here, the three reads are separate steps.
- The Java, Python, D-Bus, Frida, Windows and macOS variants, and the demonstration programs.
