/** One session of a TcpConnection as a value (potato/net/TcpConnection.cpp).

    Everything the code does not decide is an argument: what the kernel answers to a read or a write, and
    what a user callback does. A callback that is not set is one whose script is Done. */
module Session {
  import opened Endian
  import opened ByteQueue

  const READ_ROOM: nat := 4096

  /** The answer to a socket write: k + 1 bytes or all that was offered, EAGAIN, or a fatal error. */
  datatype WriteResult = Took(k: nat) | Again | Fatal

  function Taken(res: WriteResult, offered: nat): (n: nat)
    ensures n <= offered
    ensures res.Took? && offered > 0 ==> n > 0
  {
    if !res.Took? then 0 else if res.k + 1 <= offered then res.k + 1 else offered
  }

  /** What user code does on the loop thread, with the kernel's answers to the socket writes this causes.
      The scripts inside an action are those of the callbacks it may trigger. */
  datatype Script =
    | Done
    | Send(msg: seq<byte>, res: WriteResult, onComplete: Script, onClose: Script, next: Script)
    | Close(onClose: Script, next: Script)
    | Consume(n: nat, next: Script)    // readBuffer().retrieve

  datatype ReadResult =
    | Got(first: byte, rest: seq<byte>, onMessage: Script)
    | Eof(onClose: Script)
    | ReadFatal(onClose: Script)
    | ReadAgain

  /** An invoked callback. WriteComplete notes what had run and what the socket had taken by then. */
  datatype Callback =
    | Connected
    | Message
    | WriteComplete(ran: seq<byte>, delivered: seq<byte>)
    | Disconnected

  /** ran: the messages whose write functor ran while connected, in order. delivered: what the socket took.
      lost: the message of a direct write that failed. returned: calls of TcpServer::returnConnection. */
  datatype History = History(ran: seq<byte>, delivered: seq<byte>, lost: seq<byte>,
                             received: seq<byte>, consumed: seq<byte>,
                             trace: seq<Callback>, returned: nat)

  const NO_HISTORY: History := History([], [], [], [], [], [], 0)

  /** Free: loop_, socket_ and ioEvent_ are null. Bound: set, the registering functor has not run.
      Open: registered and connected. Closing: removed and disconnected, inside reset's callback. */
  datatype Phase = Free | Bound | Open | Closing

  datatype Session = Session(phase: Phase, etMode: bool, writing: bool, rbuf: Buf, wbuf: Buf,
                             crashed: bool, h: History)
  {
    predicate Valid() {
      rbuf.Valid() && wbuf.Valid() && rbuf.Writeable() >= READ_ROOM
    }

    function Note(c: Callback): (s: Session)
      requires Valid()
      ensures s.Valid() && s.phase == phase
    {
      this.(h := h.(trace := h.trace + [c]))
    }

    /** The write-complete callback is invoked. */
    function Completed(): (s: Session)
      requires Valid()
      ensures s.Valid() && s.phase == phase
    {
      Note(WriteComplete(h.ran, h.delivered))
    }

    /** A write functor runs while connected. */
    function Ran(msg: seq<byte>): Session {
      this.(h := h.(ran := h.ran + msg))
    }

    /** The socket takes bytes that were never buffered. */
    function Deliver(bytes: seq<byte>): Session {
      this.(h := h.(delivered := h.delivered + bytes))
    }

    /** A direct write fails, and its message is dropped. */
    function Lose(msg: seq<byte>): Session {
      this.(h := h.(lost := msg))
    }

    /** Bytes join the write buffer. */
    function Buffered(bytes: seq<byte>): (s: Session)
      requires Valid()
      ensures s.Valid() && s.wbuf.Contents() == wbuf.Contents() + bytes
    {
      this.(wbuf := wbuf.Write(bytes))
    }

    /** The socket takes the first n bytes of the write buffer. */
    function Flush(n: nat): (s: Session)
      requires Valid() && n <= wbuf.Readable()
      ensures s.Valid() && s.wbuf.Contents() == wbuf.Contents()[n..]
    {
      this.(wbuf := wbuf.Retrieve(n), h := h.(delivered := h.delivered + wbuf.Contents()[..n]))
    }

    /** User code takes n bytes from the read buffer, or all there are. */
    function Eat(n: nat): (s: Session)
      requires Valid()
      ensures s.Valid()
    {
      var k := if n <= rbuf.Readable() then n else rbuf.Readable();
      this.(rbuf := rbuf.Retrieve(k), h := h.(consumed := h.consumed + rbuf.Contents()[..k]))
    }
  }

  const NEW_CONNECTION: Session := Session(Free, false, false, EMPTY, EMPTY, false, NO_HISTORY)

  // ---------------------------------------------------------------------------
  // User code and what it calls
  // ---------------------------------------------------------------------------

  /** A callback runs to its end. send and close run inline, as runInLoop does on its own thread. */
  function RunScript(s: Session, a: Script): (s': Session)
    requires s.Valid() && s.phase != Bound
    ensures s'.Valid() && s'.etMode == s.etMode && s'.crashed == s.crashed
    ensures if s.phase == Open then s'.phase in {Open, Free} else s'.phase == s.phase
    decreases a, 1
  {
    match a
    case Done => s
    case Send(_, _, _, _, next) => RunScript(WriteFunctor(s, a), next)
    case Close(onClose, next) => RunScript(CloseEvent(s, onClose), next)
    case Consume(n, next) => RunScript(s.Eat(n), next)
  }

  /** The functor posted by write. */
  function WriteFunctor(s: Session, a: Script): (s': Session)
    requires s.Valid() && s.phase != Bound && a.Send?
    ensures s'.Valid() && s'.etMode == s.etMode && s'.crashed == s.crashed
    ensures if s.phase == Open then s'.phase in {Open, Free} else s' == s
    decreases a, 0
  {
    if s.phase != Open then s
    else
      var s1 := s.Ran(a.msg);
      if s.writing then s1.Buffered(a.msg)
      else if a.res.Fatal? then CloseEvent(s1.Lose(a.msg), a.onClose)
      else
        var n := Taken(a.res, |a.msg|);
        var s2 := s1.Deliver(a.msg[..n]);
        if n != |a.msg| then s2.Buffered(a.msg[n..]).(writing := true)
        else RunScript(s2.Completed(), a.onComplete)
  }

  /** handleCloseEvent, with destroyConnection and reset inline. */
  function CloseEvent(s: Session, onClose: Script): (s': Session)
    requires s.Valid() && s.phase != Bound
    ensures s'.Valid() && s'.etMode == s.etMode && s'.crashed == s.crashed
    ensures if s.phase == Open then s'.phase == Free else s' == s
    decreases onClose, 2
  {
    if s.phase != Open then s
    else
      var s1 := RunScript(s.(phase := Closing).Note(Disconnected), onClose);
      s1.(phase := Free, writing := false, h := s1.h.(returned := s1.h.returned + 1))
  }

  // ---------------------------------------------------------------------------
  // Handlers
  // ---------------------------------------------------------------------------

  /** The socket takes n of the buffered bytes; when it takes all, EPOLLOUT is dropped and the callback runs. */
  function Flushed(s: Session, n: nat, onComplete: Script): (s': Session)
    requires s.Valid() && s.phase == Open && n <= s.wbuf.Readable()
    ensures s'.Valid() && s'.phase in {Open, Free} && s'.etMode == s.etMode && s'.crashed == s.crashed
  {
    var s2 := s.Flush(n);
    if s2.wbuf.Readable() > 0 then s2 else RunScript(s2.(writing := false).Completed(), onComplete)
  }

  /** handleWriteEvent up to its last test: one write of what is buffered. */
  function WriteOnce(s: Session, res: WriteResult, onComplete: Script, onClose: Script): (s': Session)
    requires s.Valid() && s.phase == Open && s.writing
    ensures s'.Valid() && s'.phase in {Open, Free} && s'.etMode == s.etMode && s'.crashed == s.crashed
  {
    if s.wbuf.Readable() == 0 then s
    else if res.Took? then Flushed(s, Taken(res, s.wbuf.Readable()), onComplete)
    else if res.Fatal? then CloseEvent(s, onClose)
    else s
  }

  /** The last test of handleWriteEvent. Line 127 dereferences ioEvent_ when the buffer is empty, whatever the
      callback did. */
  function LastTest(s: Session): (s': Session)
    requires s.Valid()
    ensures s'.Valid() && s'.phase == s.phase && s'.wbuf == s.wbuf && s'.etMode == s.etMode
  {
    if s.wbuf.Readable() > 0 then s
    else if s.phase == Free then s.(crashed := true)
    else s.(writing := false)
  }

  /** handleWriteEvent. */
  function WriteEvent(s: Session, res: WriteResult, onComplete: Script, onClose: Script): (s': Session)
    requires s.Valid() && s.phase == Open && s.writing
    ensures s'.Valid() && s'.phase in {Open, Free} && s'.etMode == s.etMode
  {
    LastTest(WriteOnce(s, res, onComplete, onClose))
  }

  /** The first n bytes, or all of them. */
  function Cut(bytes: seq<byte>, n: nat): (r: seq<byte>)
    ensures r <= bytes && (|r| == n || r == bytes)
    ensures |r| <= n
    ensures n > 0 && |bytes| > 0 ==> |r| > 0
  {
    if |bytes| <= n then bytes else bytes[..n]
  }

  /** The read buffer after a read of some bytes and the growth test that follows. */
  function AfterRead(b: Buf, bytes: seq<byte>): (b': Buf)
    requires b.Valid() && |bytes| <= b.Writeable()
    ensures b'.Valid() && b'.Contents() == b.Contents() + bytes && b'.Writeable() >= READ_ROOM
  {
    var b1 := b.Fill(bytes).HasWritten(|bytes|);
    if b1.Writeable() < READ_ROOM then b1.Expand(READ_ROOM) else b1
  }

  /** One turn of the read loop. Line 96 dereferences ioEvent_ after the message callback. */
  function ReadTurn(s: Session, r: ReadResult): (s': Session)
    requires s.Valid() && s.phase == Open
    ensures s'.Valid() && s'.phase in {Open, Free} && s'.etMode == s.etMode
  {
    match r
    case ReadAgain => s
    case Eof(onClose) => CloseEvent(s, onClose)
    case ReadFatal(onClose) => CloseEvent(s, onClose)
    case Got(first, rest, onMessage) =>
      var s2 := RunScript(Received(s, Cut([first] + rest, s.rbuf.Writeable())), onMessage);
      if s2.phase == Free then s2.(crashed := true) else s2
  }

  /** handleReadEvent, one element of rs for each turn of the loop; after the last one the kernel has nothing. */
  function ReadEvent(s: Session, rs: seq<ReadResult>): (s': Session)
    requires s.Valid() && s.phase == Open
    ensures s'.Valid() && s'.phase in {Open, Free} && s'.etMode == s.etMode
    decreases |rs|
  {
    if rs == [] then s
    else
      var s1 := ReadTurn(s, rs[0]);
      if rs[0].Got? && s1.phase == Open && s.etMode then ReadEvent(s1, rs[1..]) else s1
  }

  /** After i turns of the loop, with v the state: what is left to do leads to goal. */
  predicate OnTheWay(v: Session, rs: seq<ReadResult>, i: nat, goal: Session) {
    v.Valid() && v.phase == Open && i <= |rs| && ReadEvent(v, rs[i..]) == goal
  }

  lemma NextTurn(v: Session, rs: seq<ReadResult>, i: nat, goal: Session)
    requires OnTheWay(v, rs, i, goal)
    ensures i == |rs| ==> v == goal
    ensures i < |rs| ==>
              var v1 := ReadTurn(v, rs[i]);
              if rs[i].Got? && v1.phase == Open && v.etMode then OnTheWay(v1, rs, i + 1, goal) else v1 == goal
  {
    if i < |rs| {
      assert rs[i..][1..] == rs[i + 1..];
    }
  }

  function Received(s: Session, bytes: seq<byte>): (s': Session)
    requires s.Valid() && |bytes| <= s.rbuf.Writeable()
    ensures s'.Valid() && s'.phase == s.phase
  {
    s.(rbuf := AfterRead(s.rbuf, bytes), h := s.h.(received := s.h.received + bytes)).Note(Message)
  }

  // ---------------------------------------------------------------------------
  // Runs
  // ---------------------------------------------------------------------------

  /** What the loop thread does next: the registering functor, a posted functor, or an epoll event. */
  datatype Event =
    | Register(onConnect: Script)
    | Task(script: Script)
    | Readable(rs: seq<ReadResult>)
    | Writable(res: WriteResult, onComplete: Script, onClose: Script)
    | HangUp(onClose: Script)

  /** The registering functor is the first to run; epoll reports only what is registered, and EPOLLOUT
      only while it is asked for. A functor may still run after the session ended. Nothing runs after a crash. */
  predicate Enabled(s: Session, e: Event) {
    && !s.crashed
    && match e
       case Register(_) => s.phase == Bound
       case Task(_) => s.phase in {Open, Free}
       case Readable(_) => s.phase == Open
       case Writable(_, _, _) => s.phase == Open && s.writing
       case HangUp(_) => s.phase == Open
  }

  function Step(s: Session, e: Event): (s': Session)
    requires s.Valid()
    ensures s'.Valid() && s'.etMode == s.etMode
  {
    if !Enabled(s, e) then s
    else match e
      case Register(onConnect) => RunScript(s.(phase := Open).Note(Connected), onConnect)
      case Task(script) => RunScript(s, script)
      case Readable(rs) => ReadEvent(s, rs)
      case Writable(res, onComplete, onClose) => WriteEvent(s, res, onComplete, onClose)
      case HangUp(onClose) => CloseEvent(s, onClose)
  }

  function Run(s: Session, es: seq<Event>): (s': Session)
    requires s.Valid()
    ensures s'.Valid()
    decreases es
  {
    if es == [] then s else Run(Step(s, es[0]), es[1..])
  }

  /** bindSocket, up to the functor it posts. The two buffers are kept as they are. */
  function Bind(s: Session, etMode: bool): (s': Session)
    requires s.Valid() && s.phase == Free
    ensures s'.Valid() && s'.phase == Bound && !s'.writing && s'.h == NO_HISTORY
    ensures s'.rbuf == s.rbuf && s'.wbuf == s.wbuf && s'.etMode == etMode && s'.crashed == s.crashed
  {
    Session(Bound, etMode, false, s.rbuf, s.wbuf, s.crashed, NO_HISTORY)
  }
}
