/** The connection object (potato/net/TcpConnection.cpp). Every method leaves exactly the state that the session
    machine gives, and every assert of the source is proved at its place. Methods run on the connection's loop
    thread, where runInLoop calls inline. */
module TcpConnection {
  import opened Endian
  import opened ByteQueue
  import opened IOWatcher
  import S = Session
  import SessionProofs
  import opened Session

  /** The part of Socket that the connection uses. */
  class Socket {
    var connected: bool

    constructor ()
      ensures connected
    {
      connected := true;
    }

    method Close()
      modifies this
      ensures !connected
    {
      connected := false;
    }
  }

  class EventLoop {
    const watcher: IOWatcher

    constructor (watcher: IOWatcher)
      ensures this.watcher == watcher
    {
      this.watcher := watcher;
    }
  }

  /** Each event of a run is enabled when it happens. */
  predicate AllEnabled(s: Session, es: seq<Event>)
    requires s.Valid()
    decreases es
  {
    es == [] || (Enabled(s, es[0]) && AllEnabled(Step(s, es[0]), es[1..]))
  }

  class TcpConnection {
    const index: nat
    var loop: EventLoop?
    var ioEvent: IOEvent?
    var socket: Socket?
    var readBuffer: Buf
    var writeBuffer: Buf
    ghost var mode: bool       // etMode of the last event
    ghost var crashed: bool    // a null ioEvent was dereferenced
    ghost var h: History

    /** The three pointers are set and cleared together; while they are set the event is in the kernel's table,
        with the mask its flags say, exactly from registration to close. */
    ghost predicate Valid()
      reads this, ioEvent, Watched(), socket
    {
      && readBuffer.Valid() && writeBuffer.Valid() && readBuffer.Writeable() >= READ_ROOM
      && (ioEvent == null <==> socket == null) && (ioEvent == null <==> loop == null)
      && (ioEvent != null ==>
            && loop.watcher == ioEvent.watcher && mode == ioEvent.etMode
            && (ioEvent.Registered() || ioEvent.Unregistered())
            && (ioEvent.Registered() ==> socket.connected)
            && (ioEvent.Unregistered() && socket.connected ==> !ioEvent.isWriting))
    }

    ghost function Watched(): set<object>
      reads this
    {
      if ioEvent == null then {} else {ioEvent.watcher}
    }

    ghost function View(): Session
      reads this, ioEvent, socket
    {
      Session(if ioEvent == null || socket == null then Free
              else if !socket.connected then Closing
              else if ioEvent.inEpoll then Open
              else Bound,
              mode, ioEvent != null && ioEvent.isWriting, readBuffer, writeBuffer, crashed, h)
    }

    /** Since the old state, in which e was the event, the pointers stayed or became null, and no other registration
        in its watcher changed. */
    twostate predicate Framed(e: IOEvent?)
      reads this, if e == null then {} else {e.watcher}
    {
      && (ioEvent == e || ioEvent == null)
      && (socket == old(socket) || socket == null)
      && (loop == old(loop) || loop == null)
      && (e != null ==> e.OthersUnchanged(old(e.watcher.interest)))
    }

    constructor (index: nat)
      ensures Valid() && this.index == index && View() == NEW_CONNECTION
    {
      this.index := index;
      loop, ioEvent, socket := null, null, null;
      readBuffer, writeBuffer := EMPTY, EMPTY;
      mode, crashed, h := false, false, NO_HISTORY;
    }

    /** bindSocket. Its asserts are the preconditions; the functor it posts is Registration. */
    method BindSocket(s: Socket, l: EventLoop)
      requires Valid() && loop == null && socket == null && ioEvent == null && s.connected
      modifies this
      ensures Valid() && fresh(ioEvent) && socket == s && loop == l
      ensures View() == Bind(old(View()), l.watcher.etMode)
    {
      loop := l;
      ioEvent := new IOEvent(l.watcher);
      socket := s;
      mode, h := l.watcher.etMode, NO_HISTORY;
    }

    method Registration(onConnect: Script)
      requires Valid() && View().phase == Bound && !crashed
      modifies this, ioEvent, Watched(), socket
      ensures Valid() && Framed(old(ioEvent)) && View() == Step(old(View()), Register(onConnect))
    {
      ioEvent.ExpectReading();
      h := h.(trace := h.trace + [Connected]);
      RunScript(onConnect);
    }

    /** User code. */
    method RunScript(a: Script)
      requires Valid() && View().phase != Bound
      modifies this, ioEvent, Watched(), socket
      ensures Valid() && Framed(old(ioEvent)) && View() == S.RunScript(old(View()), a)
      decreases a, 1
    {
      match a {
        case Done =>
        case Send(_, _, _, _, next) =>
          Write(a);
          RunScript(next);
        case Close(onClose, next) =>
          CloseConnection(onClose);
          RunScript(next);
        case Consume(n, next) =>
          ConsumeBytes(n);
          RunScript(next);
      }
    }

    method ConsumeBytes(n: nat)
      requires Valid()
      modifies this`readBuffer, this`h
      ensures Valid() && View() == old(View()).Eat(n)
    {
      var k := if n <= readBuffer.Readable() then n else readBuffer.Readable();
      h := h.(consumed := h.consumed + readBuffer.Contents()[..k]);
      readBuffer := readBuffer.Retrieve(k);
    }

    /** write(StringSlice), with its functor inline. */
    method Write(a: Script)
      requires Valid() && View().phase != Bound && a.Send?
      modifies this, ioEvent, Watched(), socket
      ensures Valid() && Framed(old(ioEvent)) && View() == WriteFunctor(old(View()), a)
      decreases a, 0
    {
      if socket == null {
        return;
      }
      assert ioEvent != null && loop != null;
      if !socket.connected {
        return;
      }
      h := h.(ran := h.ran + a.msg);
      if ioEvent.isWriting {
        writeBuffer := writeBuffer.Write(a.msg);
      } else if a.res.Fatal? {
        h := h.(lost := a.msg);
        HandleCloseEvent(a.onClose);
      } else {
        FinishWrite(a.msg, Taken(a.res, |a.msg|), a.onComplete);
      }
    }

    /** The rest of the functor, after a direct write that took the first written bytes. */
    method FinishWrite(msg: seq<byte>, written: nat, onComplete: Script)
      requires Valid() && View().phase == Open && !ioEvent.isWriting && written <= |msg|
      modifies this, ioEvent, Watched(), socket
      ensures Valid() && Framed(old(ioEvent))
      ensures var s := old(View()).Deliver(msg[..written]);
              View() == if written != |msg| then s.Buffered(msg[written..]).(writing := true)
                        else S.RunScript(s.Completed(), onComplete)
      decreases onComplete, 3
    {
      h := h.(delivered := h.delivered + msg[..written]);
      if written != |msg| {
        BufferRest(msg[written..]);
      } else {
        CallWriteComplete(onComplete);
      }
    }

    method CallWriteComplete(onComplete: Script)
      requires Valid() && View().phase == Open
      modifies this, ioEvent, Watched(), socket
      ensures Valid() && Framed(old(ioEvent))
      ensures View() == S.RunScript(old(View()).Completed(), onComplete)
      decreases onComplete, 2
    {
      h := h.(trace := h.trace + [WriteComplete(h.ran, h.delivered)]);
      RunScript(onComplete);
    }

    method BufferRest(bytes: seq<byte>)
      requires Valid() && View().phase == Open && !ioEvent.isWriting
      modifies this`writeBuffer, ioEvent, Watched()
      ensures Valid() && Framed(old(ioEvent))
      ensures View() == old(View()).Buffered(bytes).(writing := true)
    {
      writeBuffer := writeBuffer.Write(bytes);
      ioEvent.ExpectWriting();
    }

    /** close(). */
    method CloseConnection(onClose: Script)
      requires Valid() && View().phase != Bound
      modifies this, ioEvent, Watched(), socket
      ensures Valid() && Framed(old(ioEvent)) && View() == CloseEvent(old(View()), onClose)
      decreases onClose, 4
    {
      if socket == null {
        return;
      }
      assert ioEvent != null && loop != null;
      HandleCloseEvent(onClose);
    }

    method HandleCloseEvent(onClose: Script)
      requires Valid() && View().phase != Bound
      modifies this, ioEvent, Watched(), socket
      ensures Valid() && Framed(old(ioEvent)) && View() == CloseEvent(old(View()), onClose)
      decreases onClose, 3
    {
      if socket == null {
        return;
      }
      assert ioEvent != null && loop != null;
      if socket.connected {
        Disconnect();
        Reset(onClose);
        assert View().phase == Free;
        h := h.(returned := h.returned + 1);
      }
    }

    method Disconnect()
      requires Valid() && View().phase == Open
      modifies ioEvent, Watched(), socket
      ensures Valid() && Framed(old(ioEvent))
      ensures View() == old(View()).(phase := Closing)
    {
      ioEvent.RemoveThisEvent();
      socket.Close();
    }

    /** The functor of destroyConnection up to returnConnection. */
    method Reset(onClose: Script)
      requires Valid() && View().phase == Closing
      modifies this, ioEvent, Watched(), socket
      ensures Valid() && Framed(old(ioEvent)) && loop == null && ioEvent == null && socket == null
      ensures View() == S.RunScript(old(View()).Note(Disconnected), onClose).(phase := Free, writing := false)
      decreases onClose, 2
    {
      assert ioEvent != null && socket != null && loop != null;
      h := h.(trace := h.trace + [Disconnected]);
      RunScript(onClose);
      loop := null;
      ioEvent := null;
      socket := null;
    }

    method HandleWriteEvent(res: WriteResult, onComplete: Script, onClose: Script)
      requires Valid() && View().phase == Open && ioEvent.isWriting && !crashed
      modifies this, ioEvent, Watched(), socket
      ensures Valid() && Framed(old(ioEvent)) && View() == WriteEvent(old(View()), res, onComplete, onClose)
    {
      WriteBuffered(res, onComplete, onClose);
      IgnoreWritingIfDrained();
    }

    /** Lines 126 to 128. */
    method IgnoreWritingIfDrained()
      requires Valid() && View().phase in {Open, Free}
      modifies this`crashed, ioEvent, Watched()
      ensures Valid() && Framed(old(ioEvent))
      ensures View() == LastTest(old(View()))
    {
      if writeBuffer.Readable() == 0 {
        if ioEvent == null {
          crashed := true;
          return;
        }
        ioEvent.IgnoreWriting();
      }
    }

    /** The first half of handleWriteEvent. */
    method WriteBuffered(res: WriteResult, onComplete: Script, onClose: Script)
      requires Valid() && View().phase == Open && ioEvent.isWriting
      modifies this, ioEvent, Watched(), socket
      ensures Valid() && Framed(old(ioEvent))
      ensures View() == WriteOnce(old(View()), res, onComplete, onClose)
    {
      if writeBuffer.Readable() > 0 {
        if res.Took? {
          RetrieveWritten(Taken(res, writeBuffer.Readable()), onComplete);
        } else if res.Fatal? {
          HandleCloseEvent(onClose);
        } else {
          ioEvent.ExpectWriting();
        }
      }
    }

    /** Its branch for a write that took n bytes. */
    method RetrieveWritten(n: nat, onComplete: Script)
      requires Valid() && View().phase == Open && ioEvent.isWriting && n <= writeBuffer.Readable()
      modifies this, ioEvent, Watched(), socket
      ensures Valid() && Framed(old(ioEvent))
      ensures View() == Flushed(old(View()), n, onComplete)
    {
      h := h.(delivered := h.delivered + writeBuffer.Contents()[..n]);
      writeBuffer := writeBuffer.Retrieve(n);
      assert View() == old(View()).Flush(n);
      if writeBuffer.Readable() == 0 {
        ioEvent.IgnoreWriting();
        CallWriteComplete(onComplete);
      }
    }

    /** One read that brought bytes, up to the message callback. */
    method ReceiveBytes(bytes: seq<byte>)
      requires Valid() && |bytes| <= readBuffer.Writeable()
      modifies this`readBuffer, this`h
      ensures Valid() && View() == Received(old(View()), bytes)
    {
      readBuffer := readBuffer.Fill(bytes).HasWritten(|bytes|);
      if readBuffer.Writeable() < READ_ROOM {
        readBuffer := readBuffer.Expand(READ_ROOM);
      }
      h := h.(received := h.received + bytes, trace := h.trace + [Message]);
    }

    /** One turn of the read loop; the result is the value of its condition. */
    method HandleRead(r: ReadResult) returns (again: bool)
      requires Valid() && View().phase == Open && !crashed
      modifies this, ioEvent, Watched(), socket
      ensures Valid() && Framed(old(ioEvent))
      ensures View() == ReadTurn(old(View()), r)
      ensures again <==> r.Got? && View().phase == Open && old(mode)
      ensures again ==> !crashed
    {
      again := false;
      if r.Got? {
        ReceiveBytes(Cut([r.first] + r.rest, readBuffer.Writeable()));
        RunScript(r.onMessage);
        if ioEvent == null {
          crashed := true;
        } else {
          again := ioEvent.etMode;
        }
      } else if !r.ReadAgain? {
        HandleCloseEvent(r.onClose);
      }
    }

    method HandleReadEvent(rs: seq<ReadResult>)
      requires Valid() && View().phase == Open && !crashed
      modifies this, ioEvent, Watched(), socket
      ensures Valid() && Framed(old(ioEvent))
      ensures View() == ReadEvent(old(View()), rs)
    {
      ghost var goal := ReadEvent(View(), rs);
      assert rs[0..] == rs;
      var i := 0;
      var again := true;
      while again
        invariant 0 <= i <= |rs| && Valid()
        invariant Framed(old(ioEvent))
        invariant if again then OnTheWay(View(), rs, i, goal) && !crashed else View() == goal
        decreases again, |rs| - i
      {
        NextTurn(View(), rs, i, goal);
        if i == |rs| {
          again := false;
        } else {
          again := HandleRead(rs[i]);
          i := i + 1;
        }
      }
    }

    /** handleIOEvent for this connection: one reported mask, one handler. */
    method HandleIOEvent(ev: bv32, res: WriteResult, rs: seq<ReadResult>, onComplete: Script, onClose: Script)
      requires Valid() && View().phase == Open && !crashed && Reportable(ev, ioEvent.events)
      modifies this, ioEvent, Watched(), socket
      ensures Valid() && Framed(old(ioEvent))
      ensures Handles(CloseHandler, ev) ==> View() == Step(old(View()), HangUp(onClose))
      ensures Handles(ReadHandler, ev) ==> View() == Step(old(View()), Readable(rs))
      ensures Handles(WriteHandler, ev) ==> View() == Step(old(View()), Writable(res, onComplete, onClose))
      ensures Handles(NoHandler, ev) ==> View() == old(View())
    {
      OneHandles(CloseHandler, ev);
      OneHandles(ReadHandler, ev);
      OneHandles(WriteHandler, ev);
      OneHandles(NoHandler, ev);
      if Dispatch(ev) == WriteHandler { WriteHandlerOnlyWhenAsked(ev, ioEvent.events); }
      Invoke(Dispatch(ev), res, rs, onComplete, onClose);
    }

    /** The callback that bindSocket has set for it. */
    method Invoke(handler: Handler, res: WriteResult, rs: seq<ReadResult>, onComplete: Script, onClose: Script)
      requires Valid() && View().phase == Open && !crashed && (handler == WriteHandler ==> ioEvent.isWriting)
      modifies this, ioEvent, Watched(), socket
      ensures Valid() && Framed(old(ioEvent))
      ensures handler == CloseHandler ==> View() == Step(old(View()), HangUp(onClose))
      ensures handler == ReadHandler ==> View() == Step(old(View()), Readable(rs))
      ensures handler == WriteHandler ==> View() == Step(old(View()), Writable(res, onComplete, onClose))
      ensures handler == NoHandler ==> View() == old(View())
    {
      match handler {
        case CloseHandler => HandleCloseEvent(onClose);
        case ReadHandler => HandleReadEvent(rs);
        case WriteHandler => HandleWriteEvent(res, onComplete, onClose);
        case NoHandler =>
      }
    }

    /** If isWriting_ holds exactly while bytes are buffered, the kernel watches for EPOLLOUT exactly then; for data to
        read it always watches, in the mode of the watcher. */
    lemma KernelArmedIffPending()
      requires Valid() && View().phase == Open && (View().writing <==> writeBuffer.Contents() != [])
      ensures ioEvent in ioEvent.watcher.interest
      ensures ioEvent.watcher.interest[ioEvent] & EPOLLOUT != 0 <==> writeBuffer.Contents() != []
      ensures ioEvent.watcher.interest[ioEvent] & EPOLLIN != 0 && ioEvent.watcher.interest[ioEvent] & EPOLLPRI != 0
      ensures ioEvent.watcher.interest[ioEvent] & EPOLLET != 0 <==> ioEvent.etMode
    {}

    // -------------------------------------------------------------------------
    // Runs of the object
    // -------------------------------------------------------------------------

    /** Whatever the loop does next for this connection is one step of the session machine. */
    method HandleEvent(e: Event)
      requires Valid() && Enabled(View(), e)
      modifies this, ioEvent, Watched(), socket
      ensures Valid() && Framed(old(ioEvent)) && View() == Step(old(View()), e)
    {
      match e {
        case Register(onConnect) => Registration(onConnect);
        case Task(script) => RunScript(script);
        case Readable(rs) => HandleReadEvent(rs);
        case Writable(res, onComplete, onClose) => HandleWriteEvent(res, onComplete, onClose);
        case HangUp(onClose) => HandleCloseEvent(onClose);
      }
    }

    method HandleEvents(es: seq<Event>)
      requires Valid() && AllEnabled(View(), es)
      modifies this, ioEvent, Watched(), socket
      ensures Valid() && Framed(old(ioEvent)) && View() == Run(old(View()), es)
      decreases |es|
    {
      if es != [] {
        HandleEvent(es[0]);
        HandleEvents(es[1..]);
      }
    }

    /** A whole session over the three objects. If nothing was left in the write buffer then at its end, while it is
        open, the kernel watches for EPOLLOUT exactly while bytes are buffered. */
    method RunSession(s: Socket, l: EventLoop, es: seq<Event>)
      requires Valid() && loop == null && socket == null && ioEvent == null && s.connected
      requires AllEnabled(Bind(View(), l.watcher.etMode), es)
      modifies this, s, l.watcher
      ensures Valid() && View() == Run(Bind(old(View()), l.watcher.etMode), es)
      ensures View().phase == Open && old(writeBuffer.Contents()) == [] ==>
                && ioEvent != null && ioEvent.watcher == l.watcher && ioEvent in l.watcher.interest
                && (l.watcher.interest[ioEvent] & EPOLLOUT != 0 <==> writeBuffer.Contents() != [])
                && l.watcher.interest[ioEvent] & EPOLLIN != 0
                && (l.watcher.interest[ioEvent] & EPOLLET != 0 <==> l.watcher.etMode)
    {
      ghost var before := View();
      BindSocket(s, l);
      HandleEvents(es);
      if ioEvent != null && View().phase == Open && before.wbuf.Contents() == [] {
        SessionProofs.WriteInterest(before, l.watcher.etMode, es);
        KernelArmedIffPending();
      }
    }
  }
}
