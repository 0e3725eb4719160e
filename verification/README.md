# Verified model of libpotato

libpotato is a small reactor-style TCP library. This project models its stateful core in Dafny and proves what it
keeps over every input, every run and every interleaving of its threads:

- `StringSearch`, `StringPieces`: searching (Knuth-Morris-Pratt), trimming and splitting of `StringSlice`.
- `ByteQueue`, `NetBuffer`, `BufferRuns`: `Buffer` as a byte array with two indices, and as the byte queue it refines.
- `Endian`, `Framing`: byte order on either kind of host, and integers framed on the queue.
- `Session`, `SessionProofs`: one session of a connection as a step machine, and its theorems.
- `SessionSteps`, `SessionTally`: what each handler does for each answer of the kernel, and what a run adds up to when it
  is counted from the events alone.
- `SessionFates`, `SessionCrashes`, `SessionLosses`: what the kernel's answers decide about user code, and exactly when a
  run dereferences null or loses a message.
- `IOWatcher`, `TcpConnection`: the epoll interest of a descriptor and the connection object. Each method of the object
  leaves exactly the state that the session machine gives, and each `assert` of the source is proved where it stands.
- `TaskQueue`, `EndToEnd`: the task queue of `EventLoop`, and the queue together with a session.
- `ConnectionPool`, `TcpServer`: the pool of connection objects as interleaved steps, and the server object.
- `LoopPool`: the start barrier and the round robin of `EventLoopPool`.

How the environment is modelled. A socket write takes some or all of the bytes offered, or gives EAGAIN, or fails; a
socket read brings bytes, EOF, EAGAIN or an error. User callbacks are scripts: any finite nesting of sends, closes and
reads of the read buffer, with the kernel's answers to the socket calls they cause. A callback that is not set is an
empty script. All theorems hold for every choice of these. A write of a non-empty buffer never returns 0.

Where the code does less than one might expect, the model follows the code:

- `Buffer::retrieve(void*, size_t)` consumes twice what it copies (`RetrieveVoidConsumesOnce`).
- Neither `bindSocket` nor `reset` empties the write buffer. The outgoing stream is intact in every run exactly when the
  buffer was empty at bind (`StreamIntegrityIffDrainedAtBind`); a session can end with bytes in it
  (`SessionsCanEndUndrained`). In any session those bytes are the only thing inserted in the stream, as one piece
  (`OutgoingStreamOfAnySession`).
- A message callback that closes its connection, or a completion callback of a write event that closes it with nothing
  waiting, makes the handler dereference the `ioEvent_` that `reset` has cleared. `RunCrash` says exactly which runs of
  any session do so, two concrete runs show both places, and `GentleRunsDoNotCrash` gives a condition on the callbacks
  that excludes it.
- The functor of a direct write that fails drops its message and ends the session. `StreamCompleteIffLossless` says
  exactly in which runs nothing is dropped, `FatalSendLosesItsMessage` is the shortest run that drops.
- "No task runs while the mutex is held" is true of the loop thread only (`TasksRunUnlocked`): another thread may hold it
  to post (`MutexHeldWhileTaskRuns`), and then only does any thread hold it (`MutexHeldIffPosterInside`).
- `startLoop` asserts only that the loop is not running, but it registers the wake-up event each time, and that fails an
  assert on a loop that was stopped (`LoopStartsOnce`).
- The growth before a read is a direct `expandBuffer(4096)`, so a read buffer may exceed twice what it ever held
  (`ReadBufferBound`).
- `slice` does not check its first argument (`SliceStaysInside`).
- `find` gives npos for an empty needle.

## Model

| member | source | states |
|---|---|---|
| StringSearch.Find | potato/utils/StringSlice.h:74-97 | the least index at which a non-empty needle occurs, npos exactly when it occurs nowhere, npos for an empty needle or haystack; at most (m-1)+n fallbacks and 3(m-1)+3n comparisons |
| StringSearch.FailureTable | potato/utils/StringSlice.h:77-85 | entry i is the length of the longest proper border of needle[..i+1]; at most m-1 fallbacks and 3(m-1) comparisons |
| StringSearch.FallBack | potato/utils/StringSlice.h:88-89 | the inner loop ends at a match that fits the next byte, or at 0, and skips no candidate; each turn is paid for by j |
| StringSearch.ChainIsAllBorders | potato/utils/StringSlice.h:80-81 | following next[j-1] visits every border of the first j bytes, and only those, in decreasing order |
| StringSearch.ReturnedIndex | potato/utils/StringSlice.h:92 | i - j + 1 in wrapping size_t arithmetic is i + 1 - j, the match at 0 included |
| StringSearch.FindChar | potato/utils/StringSlice.h:99-105 | the first index of the byte, npos exactly when there is none |
| StringPieces.SliceOf | potato/utils/StringSlice.h:32-35 | for a beginIndex not past the end, a contiguous part from there, as long as asked for or up to the end |
| StringPieces.SliceStaysInside | potato/utils/StringSlice.h:32-35 | in wrapping size_t arithmetic the slice stays inside if and only if beginIndex is not past the end; past it the length asked for is not cut down |
| StringPieces.Trim | potato/utils/StringSlice.h:43-56 | only delimiters are cut off, at both ends, and none is left at an end |
| StringPieces.TrimIsUnique | potato/utils/StringSlice.h:43-56 | that determines the result |
| StringPieces.Split | potato/utils/StringSlice.h:58-72 | nothing for the empty slice; otherwise pieces without the delimiter that join back to the slice, one more than there are delimiters |
| StringPieces.SplitIsUnique | potato/utils/StringSlice.h:58-72 | that determines the result |
| StringPieces.SplitOfJoin | potato/utils/StringSlice.h:58-72 | splitting a join gives the pieces back if and only if none contains the delimiter and the list is not one empty piece |
| StringPieces.JoinThenSplit | potato/utils/StringSlice.h:58-72 | the same for what split returns on the join |
| ByteQueue.Buf.Expand | potato/net/Buffer.cpp:30-40 | the queue is unchanged and at least the requested number of bytes is writeable |
| ByteQueue.Buf.Write | potato/net/Buffer.cpp:6-12 | appends to the queue |
| ByteQueue.Buf.Retrieve | potato/net/Buffer.h:53-59 | drops a prefix of the queue, and the writeable area does not shrink |
| ByteQueue.Buf.HasWritten | potato/net/Buffer.h:37-40 | appends the bytes already standing in the writeable area |
| ByteQueue.ExpandGrows | potato/net/Buffer.cpp:30-40 | the array grows by the number asked for unless more than that is free in all; otherwise its size stays and all that is free becomes writeable |
| ByteQueue.WriteExpandsOnlyIfNeeded | potato/net/Buffer.cpp:6-12 | a write that fits behind the queue moves and grows nothing; any other makes room once |
| ByteQueue.EmptiedIsReset | potato/net/Buffer.h:53-59 | a queue taken whole leaves the whole array writeable |
| ByteQueue.RetrieveVoidConsumesOnce | potato/net/Buffer.cpp:87-90 | the void* overload consumes just what it copies if and only if the length is 0; it passes its asserts if and only if twice the length is readable, and then consumes twice |
| ByteQueue.RetrieveVoidFailsOnOneByte | potato/net/Buffer.cpp:87-90 | a single queued byte cannot be taken through it |
| BufferRuns.RunRefinesQueue | potato/net/Buffer.cpp:6-40 | every legal run of write, retrieve, fill and hasWritten, expandBuffer and reset is the same run of a byte queue |
| BufferRuns.CapacityBound | potato/net/Buffer.cpp:30-40 | over any run, direct expandBuffer calls included, the array is never larger than max(4096, 2H, H + 2N), H the largest readable size reached and N the largest direct expandBuffer |
| BufferRuns.CapacityBoundIsTight | potato/net/Buffer.cpp:30-40 | one write reaches 2H - 1 |
| BufferRuns.AfterReadIsRun | potato/net/TcpConnection.cpp:76-82 | what a turn of the read loop does to the read buffer is a run of these operations, expandBuffer(4096) being the only direct one |
| BufferRuns.ReadBufferBound | potato/net/TcpConnection.cpp:76-82 | over any run of received bytes, such growth, retrieves and resets, the array is never larger than H + 8192 |
| BufferRuns.ReadBufferBoundIsTight | potato/net/TcpConnection.cpp:76-82 | one received byte brings the array to 8192 bytes, above max(4096, 2H) and one below H + 8192 |
| NetBuffer.Buffer.constructor | potato/net/Buffer.h:11 | an empty queue over 4096 zero bytes |
| NetBuffer.Buffer.MoveToFront | potato/net/Buffer.cpp:33-36 | the forward copy moves the readable bytes to the front although the ranges may overlap, and leaves the bytes behind them |
| NetBuffer.Buffer.Resize | potato/net/Buffer.cpp:38 | the bytes are kept and zeros follow |
| NetBuffer.Buffer.ExpandBuffer | potato/net/Buffer.cpp:30-40 | the in-place code computes Buf.Expand |
| NetBuffer.Buffer.HasWritten | potato/net/Buffer.h:37-40 | the index moves over what the socket wrote |
| NetBuffer.Buffer.Write | potato/net/Buffer.cpp:6-12 | the in-place code computes Buf.Write and appends to the queue |
| NetBuffer.Buffer.Reset | potato/net/Buffer.h:35 | the queue is empty |
| NetBuffer.Buffer.Retrieve | potato/net/Buffer.h:53-59 | drops a prefix of the queue |
| NetBuffer.Buffer.RetrieveUntil | potato/net/Buffer.h:61-65 | the queue starts at the pointer |
| NetBuffer.Buffer.Read | potato/net/Buffer.cpp:20-24 | copies the front of the queue, touches nothing else |
| NetBuffer.Buffer.RetrieveInto | potato/net/Buffer.cpp:82-85 | what is copied out followed by what is left is the old queue |
| NetBuffer.Buffer.RetrieveIntoVoid | potato/net/Buffer.cpp:87-90 | copies once and consumes twice |
| NetBuffer.Buffer.RetrieveAllAsString | potato/net/Buffer.h:45-49 | returns the whole queue and empties it |
| NetBuffer.Buffer.WriteInt32 | potato/net/Buffer.cpp:42-46 | appends four bytes, the two's complement of the value, most significant first |
| NetBuffer.Buffer.WriteInt64 | potato/net/Buffer.cpp:48-52 | appends eight bytes, the two's complement of the value, most significant first |
| NetBuffer.Buffer.WriteUint64 | potato/net/Buffer.cpp:54-57 | appends eight bytes, the two's complement of the value, most significant first |
| NetBuffer.Buffer.ReadWord | potato/net/Buffer.cpp:59-80 | the word whose big-endian bytes are at the front of the queue |
| NetBuffer.Buffer.RetrieveInt32 | potato/net/Buffer.cpp:92-96 | returns the integer whose two's complement the first four bytes are, and drops them |
| NetBuffer.Buffer.RetrieveInt64 | potato/net/Buffer.cpp:98-102 | returns the integer whose two's complement the first eight bytes are, and drops them |
| NetBuffer.Buffer.RetrieveUint64 | potato/net/Buffer.cpp:104-108 | returns the integer whose two's complement the first eight bytes are, and drops them |
| NetBuffer.Buffer.WriteItems | potato/net/Buffer.cpp:42-57 | a list of integers and raw bytes written one after another appends its wire form |
| NetBuffer.Buffer.RetrieveItems | potato/net/Buffer.cpp:82-108 | a list retrieved by its type schedule is what the schedule parses off the front, and just that is dropped |
| NetBuffer.Buffer.WriteThenRetrieve | potato/net/Buffer.cpp:42-108 | a list written to an empty buffer and then followed by any bytes is retrieved unchanged, and those bytes are left |
| Endian.NetworkImage | potato/utils/Endian.h:41-50 | a converted word lies in memory most significant byte first, on either kind of host |
| Endian.BigEndianDigit | potato/utils/Endian.h:41-50 | byte k of that image is digit n-1-k in base 256, the order of Appendix B of RFC 791 |
| Endian.NetworkRoundTrip | potato/utils/Endian.h:52-54 | converting to network order and back is the identity |
| Endian.HtonllIsFullConversion | potato/utils/Endian.h:15-19 | the two-halves macro is the full 8-byte conversion; on a little-endian host, reversal of all eight bytes |
| Endian.NtohllInvertsHtonll | potato/utils/Endian.h:21-25 | the second macro undoes the first |
| Framing.DecodeEncode | potato/net/Buffer.cpp:42-80 | each of the three integer types survives encoding and decoding, sign included |
| Framing.EncodeIsBigEndian | potato/net/Buffer.cpp:42-57 | the bytes queued for an integer, negative or not, are the base-256 digits of the integer itself, most significant first, on either host |
| Framing.EncodeDecode | potato/net/Buffer.cpp:59-80 | any bytes of the right length decode to the item that encodes to them |
| Framing.DecodeIsBigEndian | potato/net/Buffer.cpp:59-80 | what is read is the integer whose two's complement the bytes are |
| Framing.WireAppend | potato/net/Buffer.cpp:42-57 | items stand on the wire in their order |
| Framing.ParseWire | potato/net/Buffer.cpp:42-108 | the wire form of a list of integers and raw bytes, parsed with its own type schedule, gives the list back and leaves the rest |
| Session.RunScript | potato/net/EventLoop.cpp:88-90 | user code runs to its end inline; an open session stays open or ends free, any other keeps its phase |
| Session.CloseEvent | potato/net/TcpConnection.cpp:34-57 | an open session becomes free, any other state is left alone |
| Session.AfterRead | potato/net/TcpConnection.cpp:76-82 | the bytes read join the queue, and 4096 bytes are writeable again |
| Session.Bind | potato/net/TcpConnection.cpp:16-32 | a new session begins bound, not writing, with both buffers as they were left |
| SessionSteps.SendTakenInPart | potato/net/TcpConnection.cpp:152-163 | a direct write that takes k + 1 bytes of a longer message delivers just these and buffers just the rest, asking for EPOLLOUT |
| SessionSteps.SendTakenWhole | potato/net/TcpConnection.cpp:152-168 | a direct write that takes all, or of nothing, delivers the message and then runs the completion callback, noted with what was sent and delivered by then |
| SessionSteps.SendRefused | potato/net/TcpConnection.cpp:152-163 | a direct write that would block buffers the whole message and delivers nothing |
| SessionSteps.SendWhileWriting | potato/net/TcpConnection.cpp:150-151 | while EPOLLOUT is awaited a message joins the buffer and the socket is not asked |
| SessionSteps.SendFails | potato/net/TcpConnection.cpp:155-159 | a direct write that fails loses its message and closes the session |
| SessionSteps.WriteTakenInPart | potato/net/TcpConnection.cpp:107-116 | a write event that takes k + 1 bytes of more delivers just these and goes on awaiting EPOLLOUT |
| SessionSteps.WriteTakenWhole | potato/net/TcpConnection.cpp:107-128 | a write event that takes all empties the buffer, drops EPOLLOUT and runs the completion callback |
| SessionSteps.WriteRefused | potato/net/TcpConnection.cpp:121-123 | a write event that would block changes nothing |
| SessionSteps.WriteFails | potato/net/TcpConnection.cpp:117-120 | a write event that fails closes the session |
| SessionSteps.ReadBrings | potato/net/TcpConnection.cpp:76-85 | a read that brings bytes appends the first of what the kernel has, as many as there is room for, before the message callback runs |
| SessionSteps.ReadEnds | potato/net/TcpConnection.cpp:86-95 | end of file and a read error close the session and end the loop |
| SessionSteps.ReadRefused | potato/net/TcpConnection.cpp:89-95 | with nothing to read the loop ends and nothing changes |
| SessionSteps.CloseMeans | potato/net/TcpConnection.cpp:34-57 | closing invokes Disconnected, returns the object once, and neither delivers nor drops a byte |
| SessionSteps.ConsumeTakes | potato/net/Buffer.h:53-59 | user code takes the first bytes of the read buffer, as many as asked for or all |
| SessionTally.RunIsTallied | potato/net/TcpConnection.cpp:68-171 | in every run of every session the phase, a crash, the write interest, the number of bytes taken and waiting, the messages sent and the number of completions and messages are what the kernel's answers add up to, computed from the events alone |
| SessionTally.DeliveredIsCounted | potato/net/TcpConnection.cpp:99-171 | from an empty write buffer the socket has taken exactly the first so many bytes of what was sent, as many as the kernel's counts add up to, and the next ones wait |
| SessionTally.ReadsAreTallied | potato/net/TcpConnection.cpp:68-97 | if no read brings more than 4096 bytes, what was received is all the kernel brought in the turns reached, in order, and user code consumed as much as it asked for |
| SessionProofs.WriteFunctorKeeps | potato/net/TcpConnection.cpp:141-170 | the write functor keeps, in any session: delivered then buffered then lost bytes are all sent bytes, with what the write buffer held at bind as one piece that never moves once its place is decided; isWriting_ holds exactly while bytes are buffered, those old ones alone aside; every completion noted is drained; the callback order |
| SessionProofs.WriteEventKeeps | potato/net/TcpConnection.cpp:99-129 | handleWriteEvent keeps the same, line 127 included |
| SessionProofs.ReadEventKeeps | potato/net/TcpConnection.cpp:68-97 | handleReadEvent keeps the same in one-shot and edge-triggered mode, and that consumed then buffered bytes are all received |
| SessionProofs.OutgoingStreamOfAnySession | potato/net/TcpConnection.cpp:99-171 | in every run of any session, delivered then buffered then lost bytes are all messages whose functor ran while connected, in order, with what the write buffer held at bind inserted as one piece; nothing is lost while open |
| SessionProofs.OutgoingStream | potato/net/TcpConnection.cpp:99-171 | in every run from an empty write buffer, delivered then buffered then lost bytes are all messages whose functor ran while connected, in order; nothing is lost while open |
| SessionLosses.ScriptLoses | potato/net/TcpConnection.cpp:137-171 | user code loses a message if and only if it reaches a fatal direct send of a non-empty one, which follows from the kernel's answers alone; the session is then over |
| SessionLosses.StreamCompleteIffLossless | potato/net/TcpConnection.cpp:68-171 | at the end of a run of any session, delivered then buffered bytes are all sent bytes, with what the write buffer held at bind inserted as one piece, if and only if no event reaches a fatal direct send of a non-empty message |
| SessionLosses.FatalSendLosesItsMessage | potato/net/TcpConnection.cpp:150-157 | the run in which the first send fails: its message is neither delivered nor buffered |
| SessionProofs.WriteInterest | potato/net/TcpConnection.cpp:107-168 | in every such run, isWriting_ holds exactly while bytes are buffered |
| SessionProofs.CompletionMeansDrained | potato/net/TcpConnection.cpp:109-168 | in every run of any session, whenever the write-complete callback is invoked, nested or not, every byte sent so far is delivered, and besides at most what the write buffer held at bind, as one piece; from an empty write buffer, exactly the bytes sent |
| SessionProofs.IncomingStream | potato/net/TcpConnection.cpp:68-97 | consumed then buffered bytes are those left over at bind and all received; every read is offered at least 4096 bytes |
| SessionProofs.SessionTrace | potato/net/TcpConnection.cpp:16-57 | callbacks form Connected, then messages and completions, then one Disconnected; the object is returned once per ended session |
| SessionProofs.LiveUntilReturned | potato/net/TcpConnection.cpp:34-57 | in the middle of a session, whatever comes next, the session goes on with the object not returned, or has ended with it returned once |
| SessionProofs.ClosingIsQuiet | potato/net/TcpConnection.cpp:34-57 | after disconnection neither send nor close changes anything, the Disconnected callback included |
| SessionProofs.DrainedEndStaysDrained | potato/net/TcpConnection.cpp:34-43 | a session that ends with everything delivered leaves an empty write buffer |
| SessionProofs.ReuseKeepsStreamIntact | potato/net/TcpConnection.cpp:16-43 | after any number of sessions that each ended drained, the next one's stream is intact |
| SessionProofs.StaleBytesAreDelivered | potato/net/TcpConnection.cpp:149-164 | bytes left from an earlier session reach the next peer |
| SessionProofs.SessionsCanEndUndrained | potato/net/TcpConnection.cpp:34-43 | a new connection object can end a session with bytes in its write buffer: a refused send, then a hang-up |
| SessionProofs.StreamIntegrityIffDrainedAtBind | potato/net/TcpConnection.cpp:16-43 | in every run the socket takes a prefix of what was sent, if and only if the write buffer was empty at bind |
| SessionFates.ScriptMeetsFate | potato/net/TcpConnection.cpp:137-171 | in any open session, whether user code closes it, and whether EPOLLOUT is asked for then or bytes wait, follows from the kernel's answers alone |
| SessionFates.ReadEventCloses | potato/net/TcpConnection.cpp:75-96 | a read event closes the session if and only if the loop reaches end of file, a read error or a message callback that closes |
| SessionFates.WriteEventCloses | potato/net/TcpConnection.cpp:107-128 | a write event closes the session if and only if the write fails or it drains the buffer and the completion callback closes |
| SessionFates.SessionEnds | potato/net/TcpConnection.cpp:34-171 | a session has ended after a run if and only if one of its events closed it |
| SessionCrashes.WriteEventCrash | potato/net/TcpConnection.cpp:107-128 | in any session with bytes waiting a write event dereferences null if and only if it drains the buffer and the completion callback closes with nothing waiting; a fatal error never does |
| SessionCrashes.ReadEventCrash | potato/net/TcpConnection.cpp:75-96 | in any open session a read event dereferences null if and only if a message callback closes the session |
| SessionCrashes.CloseInMessageCallbackCrashes | potato/net/TcpConnection.cpp:83-96 | one received byte and a callback that closes are enough |
| SessionCrashes.CloseInCompletionCallbackCrashes | potato/net/TcpConnection.cpp:107-128 | one waiting byte that the socket takes and a completion callback that closes are enough |
| SessionCrashes.RunCrash | potato/net/TcpConnection.cpp:68-129 | a run of a session, whatever its buffers held at bind, crashes if and only if one of its events is of these two kinds |
| SessionCrashes.GentleRunsDoNotCrash | potato/net/TcpConnection.cpp:68-129 | no run of any session crashes whose message callbacks and event completion callbacks neither close nor meet a fatal send |
| IOWatcher.WriteHandlerOnlyWhenAsked | potato/net/IOWatcher.cpp:32-42 | the write handler runs only with EPOLLOUT asked for, and never for a mask with readable data |
| IOWatcher.IOWatcher.HandleIOEvent | potato/net/IOWatcher.cpp:20-47 | one handler for each reported event, by its bits: a hang-up bit gives the close handler whatever else is set, else a reading bit the read handler, else EPOLLOUT the write handler, else none; a full batch doubles the array |
| IOWatcher.IOWatcher.ChooseHandler | potato/net/IOWatcher.cpp:32-42 | the same for one event |
| IOWatcher.Mask | potato/net/IOWatcher.cpp:52-59 | the kernel gets the event's bits, and EPOLLET exactly in edge-triggered mode |
| IOWatcher.IOWatcher.AddNewIOEvent | potato/net/IOWatcher.cpp:49-65 | the event enters the kernel's table with its mask |
| IOWatcher.IOWatcher.ModifyIOEvent | potato/net/IOWatcher.cpp:67-82 | its mask in the table is replaced |
| IOWatcher.IOWatcher.DeleteIOEvent | potato/net/IOWatcher.cpp:84-93 | it leaves the table |
| IOWatcher.IOWatcher.EnableIOReading | potato/net/IOWatcher.cpp:95-100 | registered for reading; the asserts are preconditions |
| IOWatcher.IOWatcher.EnableIOWriting | potato/net/IOWatcher.cpp:102-108 | EPOLLOUT is added, in the event and in the table |
| IOWatcher.IOWatcher.DisableIOWriting | potato/net/IOWatcher.cpp:110-116 | EPOLLOUT is taken away, in the event and in the table |
| IOWatcher.IOWatcher.RemoveIOEvent | potato/net/IOWatcher.cpp:118-122 | out of the table, with no interest |
| IOWatcher.IOEvent.ExpectReading | potato/net/IOWatcher.h:68 | from unregistered to registered, other events untouched |
| IOWatcher.IOEvent.ExpectWriting | potato/net/IOWatcher.h:69-74 | flag, event bits and kernel table agree afterwards, other events untouched |
| IOWatcher.IOEvent.IgnoreWriting | potato/net/IOWatcher.h:75-80 | flag, event bits and kernel table agree afterwards, other events untouched |
| IOWatcher.IOEvent.RemoveThisEvent | potato/net/IOWatcher.h:81 | unregistered, other events untouched |
| TcpConnection.TcpConnection.BindSocket | potato/net/TcpConnection.cpp:16-32 | the object becomes Session.Bind of what it was |
| TcpConnection.TcpConnection.Registration | potato/net/TcpConnection.cpp:27-31 | the registering functor is the Register step |
| TcpConnection.TcpConnection.Write | potato/net/TcpConnection.cpp:137-171 | the object does what Session.WriteFunctor says; every assert and dereference is safe |
| TcpConnection.TcpConnection.FinishWrite | potato/net/TcpConnection.cpp:158-168 | after a direct write: the rest is buffered and EPOLLOUT asked for, or the completion callback runs |
| TcpConnection.TcpConnection.CloseConnection | potato/net/TcpConnection.cpp:59-66 | the object does what Session.CloseEvent says |
| TcpConnection.TcpConnection.HandleCloseEvent | potato/net/TcpConnection.cpp:45-57 | the same, with destroyConnection inline |
| TcpConnection.TcpConnection.Reset | potato/net/TcpConnection.cpp:34-43 | all three pointers are null afterwards |
| TcpConnection.TcpConnection.HandleWriteEvent | potato/net/TcpConnection.cpp:99-129 | the object does what Session.WriteEvent says |
| TcpConnection.TcpConnection.ReceiveBytes | potato/net/TcpConnection.cpp:78-85 | one successful read up to the message callback |
| TcpConnection.TcpConnection.HandleRead | potato/net/TcpConnection.cpp:76-96 | one turn of the read loop, and the value of the loop condition; a null ioEvent_ is recorded as a crash |
| TcpConnection.TcpConnection.HandleReadEvent | potato/net/TcpConnection.cpp:68-97 | the do-while loop does what Session.ReadEvent says |
| TcpConnection.TcpConnection.HandleIOEvent | potato/net/IOWatcher.cpp:29-43 | one reported mask is one step of the session machine, chosen by its bits in the same order; the assert of line 106 holds because EPOLLOUT was asked for |
| TcpConnection.TcpConnection.KernelArmedIffPending | potato/net/IOWatcher.cpp:102-116 | if isWriting_ holds exactly while bytes are buffered, the kernel watches for EPOLLOUT exactly then; while open it always watches for data, edge-triggered exactly if the watcher is |
| TcpConnection.TcpConnection.HandleEvents | potato/net/TcpConnection.cpp:45-171 | any run of events on the object is the run of the session machine |
| TcpConnection.TcpConnection.RunSession | potato/net/TcpConnection.cpp:16-171 | after any run of a session that began with an empty write buffer, while it is open, the kernel watches for EPOLLOUT exactly while bytes are buffered |
| TaskQueue.QueueConservation | potato/net/EventLoop.cpp:77-96 | in every reachable state the posted tasks, in lock order, are those executed, then the rest of the batch, then those pending |
| TaskQueue.ExitLeavesOnlyPending | potato/net/EventLoop.cpp:50-59 | at loop exit the only tasks not run are those pending |
| TaskQueue.TasksRunUnlocked | potato/net/EventLoop.cpp:77-96 | the loop thread runs no task while it holds the mutex, and swap and push exclude each other |
| TaskQueue.MutexHeldIffPosterInside | potato/net/EventLoop.cpp:77-96 | while the loop thread may run a task the mutex is held if and only if another thread is between its lock and its unlock |
| TaskQueue.MutexHeldWhileTaskRuns | potato/net/EventLoop.cpp:77-96 | a run exists in which another thread holds the mutex while the loop thread runs a task |
| TaskQueue.ProgramOrder | potato/net/EventLoop.cpp:88-96 | each thread's tasks are posted in the order of its calls, at most the last being on its way |
| TaskQueue.LoopStartsOnce | potato/net/EventLoop.cpp:50-59 | a stopped loop cannot be started again: wakeupEvent_ is still registered, and the assert of IOWatcher::enableIOReading fails |
| TaskQueue.FlagDecides | potato/net/EventLoop.cpp:54 | between two turns the loop thread can only test looping_: clear, the loop is over; set, it polls |
| TaskQueue.StopEndsLoop | potato/net/EventLoop.cpp:54-67 | after a stop at most the current batch runs, or the one still to be swapped out in this turn, and the loop never polls again |
| TaskQueue.StoppedLoopCanExit | potato/net/EventLoop.cpp:54-67 | from every reachable state a stopped loop can go on to its exit |
| TaskQueue.ExitWithPending | potato/net/EventLoop.cpp:50-59 | a loop may end with a task executed and another pending |
| TaskQueue.RecordsAreTrue | potato/net/EventLoop.cpp:88-96 | the recorded calls and inline tasks are those of the run, in order |
| TaskQueue.OneTaskAtATime | potato/net/EventLoop.cpp:77-96 | a push posts one task, and the loop runs one task at a time |
| TaskQueue.EventLoop.RunInLoop | potato/net/EventLoop.cpp:88-96 | inline on the loop thread; elsewhere appended to the queue, with one call of wakeup; both are runs of the interleaved steps |
| TaskQueue.EventLoop.CallPendingFunctors | potato/net/EventLoop.cpp:77-86 | runs the swapped batch in order and keeps what arrives meanwhile; a run of the interleaved steps |
| TaskQueue.EventLoop.StartLoop | potato/net/EventLoop.cpp:50-59 | on a loop never started, runs turn by turn what is pending and what comes while it polls, up to the turn that stops it, and leaves the rest pending; the interleaved steps reach Exited in this state |
| TaskQueue.EventLoop.RunTurn | potato/net/EventLoop.cpp:54-58 | one turn: what was pending and what came while polling has run, what came while these ran is pending |
| TaskQueue.EventLoop.PostedIsExecutedOrPending | potato/net/EventLoop.cpp:77-96 | between two calls, what was posted is what was executed and what is pending, in order |
| TaskQueue.EventLoop.StopLoop | potato/net/EventLoop.cpp:61-67 | the flag is cleared, and another thread calls wakeup |
| EndToEnd.EndToEndOrder | potato/net/TcpConnection.cpp:137-171 | if one other thread does all sends, and any thread may post a close or any other functor, the bytes the socket took are always a prefix of those sends in program order |
| EndToEnd.EndToEndConservation | potato/net/TcpConnection.cpp:137-171 | in such a run, while the session is open, delivered, buffered, queued and carried bytes are all that was sent, in program order |
| EndToEnd.RunsTogether | potato/net/EventLoop.cpp:77-96 | a run of queue and session together is a run of the queue, and a run of the session that meets the posted functors when they run and the events in between |
| ConnectionPool.SpinLockExcludes | potato/thread/Mutex.h:108-120 | at most one thread is between lock and unlock, and the flag is set exactly while one is |
| ConnectionPool.PoolPartition | potato/net/TcpServer.cpp:43-72 | free and lent indices partition the pool, object i has index_ i, a free object has null pointers |
| ConnectionPool.SecondSectionFindsOne | potato/net/TcpServer.cpp:55-61 | in the second critical section the free set is not empty, under any interleaving |
| ConnectionPool.NotLentTwice | potato/net/TcpServer.cpp:23-41 | what is taken was not lent, what is bound has null pointers, what is returned was not free |
| ConnectionPool.BindKeeps | potato/net/TcpServer.cpp:31 | binding what was picked meets the asserts of bindSocket and keeps the pool invariant |
| ConnectionPool.PoolSizeBound | potato/net/TcpServer.cpp:43-65 | in every run the pool holds at most one batch more than the most objects ever lent at once |
| ConnectionPool.FirstSectionAfterEmpty | potato/net/TcpServer.cpp:44-46 | the first critical section is entered only after the free set was seen empty |
| ConnectionPool.BorrowWhenFree | potato/net/TcpServer.cpp:43-65 | undisturbed, with a free object, any of them can be handed out and bound, and nothing else changes |
| ConnectionPool.BorrowWhenEmpty | potato/net/TcpServer.cpp:43-65 | undisturbed, with none, the pool grows by 200 and a new one is handed out and bound |
| ConnectionPool.EndAndReturn | potato/net/TcpServer.cpp:34-72 | undisturbed, an object whose session ends is free again, and nothing else changes |
| ConnectionPool.HolderGoesOn | potato/net/TcpServer.cpp:43-72 | whoever holds the lock can go on without it being free |
| TcpServer.TcpServer.constructor | potato/net/TcpServer.cpp:7-15 | 200 new objects, all free |
| TcpServer.TcpServer.AddConnection | potato/net/TcpServer.cpp:48-52 | one more object with the next index, free |
| TcpServer.TcpServer.AddConnections | potato/net/TcpServer.cpp:47-52 | 200 more objects with the next indices, all free |
| TcpServer.TcpServer.GrowIfEmpty | potato/net/TcpServer.cpp:45-54 | the free list is not empty afterwards, and the pool grew only if it was |
| TcpServer.TcpServer.TakeIndex | potato/net/TcpServer.cpp:57-61 | one free index leaves the list, and its object is unused |
| TcpServer.TcpServer.BorrowConnection | potato/net/TcpServer.cpp:43-65 | hands out an unused object that was free, or returned meanwhile, or new; exactly it leaves the free list, and the pool grows only if the list was empty |
| TcpServer.TcpServer.ReturnConnection | potato/net/TcpServer.cpp:67-72 | the index of an unused object becomes free; RunLent shows that reset leaves it unused |
| TcpServer.TcpServer.NewConnection | potato/net/TcpServer.cpp:23-32 | the asserts of bindSocket hold for whatever object is handed out, which is then lent and in a new session; no other object changes |
| TcpServer.TcpServer.EndedIsUnused | potato/net/TcpConnection.cpp:34-43 | an object whose session has ended has null pointers |
| TcpServer.TcpServer.RunLent | potato/net/TcpServer.cpp:34-41 | any run of a lent object: if its session ends, the object is unused and exactly its index becomes free, once; if not, it stays lent and the free list is unchanged |
| TcpServer.TcpServer.RunLentAndAccept | potato/net/TcpServer.cpp:23-41 | a session that ends and the next connection: the asserts of bindSocket hold on reuse, and if no other object was free the same object is bound again |
| LoopPool.StartReturnsWhenAllRegistered | potato/net/EventLoopPool.cpp:24-42 | start returns only when every thread's loop is registered, each once |
| LoopPool.NoLostWakeup | potato/net/EventLoopPool.cpp:28-40 | until then some thread can always go on without a spurious wake-up |
| LoopPool.StepComesNearer | potato/net/EventLoopPool.cpp:24-42 | every step but a spurious wake-up lowers a measure |
| LoopPool.BarrierTerminates | potato/net/EventLoopPool.cpp:24-42 | a run without spurious wake-ups has at most 15n+3 steps, and where it cannot go on start has returned |
| LoopPool.StartCanReturn | potato/net/EventLoopPool.cpp:24-42 | every run can be continued, without spurious wake-ups, to one in which start has returned |
| LoopPool.SomeOrderRegisters | potato/net/EventLoopPool.cpp:24-42 | for every number of threads there is an order in which their loops are registered when start returns |
| LoopPool.LoopsInPushOrder | potato/net/EventLoopPool.cpp:36-40 | the loops stand in the order in which the threads pushed them |
| LoopPool.EventLoopPool.Start | potato/net/EventLoopPool.cpp:24-42 | afterwards the pool holds every thread's loop once, in registration order |
| LoopPool.EventLoopPool.GetNextLoop | potato/net/EventLoopPool.cpp:44-52 | the loop at next_, which advances and wraps; the main loop if there is none |
| LoopPool.EventLoopPool.GetLoops | potato/net/EventLoopPool.cpp:44-52 | w calls in a row return the loops at the successive indices, each of n loops floor(w/n) or ceil(w/n) times |
| LoopPool.RoundRobin | potato/net/EventLoopPool.cpp:44-52 | from the start, call k chooses loop k mod n |
| LoopPool.TimesClosedForm | potato/net/EventLoopPool.cpp:44-52 | how often a loop is chosen in w calls, from any starting index |
| LoopPool.FairShare | potato/net/EventLoopPool.cpp:44-52 | among w successive indices each of the n is floor(w/n) or ceil(w/n) times |

## Left out

- Socket calls, epoll calls and errno: replaced by arbitrary answers; a failing epoll_ctl aborts the program.
- Acceptor, IpAddress, Date, Timestamp and logging: system calls and one-line arithmetic.
- Wake-up latency: `wakeup` reads from its socket instead of writing, so no claim is made that a post wakes the loop.
- Sends from other threads race with `reset` on `socket_`: functors of a session are taken to run before the object is bound again.
- Events of one epoll batch that refer to a connection closed earlier in the same batch.
- Unregistered sessions: the registering functor is taken to be the first functor of its session to run.
- Memory order of the atomics, `size_t` overflow of huge buffers, and writes whose source lies in the buffer itself.
- Destructors of EventLoop and EventLoopPool.
- StringPieces.SliceOf: does not model the bytes a slice spans when beginIndex is past the end, because they lie outside the object; SliceStaysInside says when this is.
- TcpServer.TcpServer.RunLent: gives the object back after the events it is given, not inside the one that ends the session; that another thread may bind the object while that handler goes on is not modelled.
- TcpConnection keeps its two Buffer members as values of ByteQueue.Buf; that the Buffer object computes these values is proved in NetBuffer.
