/** What every run of a session keeps. */
module SessionProofs {
  import opened Endian
  import opened ByteQueue
  import opened Session

  // ---------------------------------------------------------------------------
  // The invariant
  // ---------------------------------------------------------------------------

  /** Connected, then messages and completions. */
  predicate Talking(t: seq<Callback>) {
    |t| > 0 && t[0] == Connected && forall k | 1 <= k < |t| :: t[k].Message? || t[k].WriteComplete?
  }

  /** The same, then one Disconnected. */
  predicate Ended(t: seq<Callback>) {
    |t| > 0 && t[|t| - 1] == Disconnected && Talking(t[..|t| - 1])
  }

  predicate Lifecycle(s: Session) {
    && s.h.returned == (if s.phase == Free then 1 else 0)
    && match s.phase
       case Bound => s.h.trace == []
       case Open => Talking(s.h.trace)
       case _ => Ended(s.h.trace)
  }

  /** Where the bytes that the write buffer held at bind stand in the outgoing stream: they still wait alone in the
      buffer, or they stand after the first p bytes that were sent. */
  datatype Way = Waiting(left: seq<byte>) | Woven(p: nat, left: seq<byte>)

  /** A session that began with an empty write buffer. */
  const DRAINED: Way := Woven(0, [])

  function Weave(ran: seq<byte>, p: nat, left: seq<byte>): (r: seq<byte>)
    requires p <= |ran|
    ensures |r| == |ran| + |left|
    ensures left == [] ==> r == ran
  {
    ran[..p] + left + ran[p..]
  }

  lemma WeaveAppend(ran: seq<byte>, msg: seq<byte>, p: nat, left: seq<byte>)
    requires p <= |ran|
    ensures Weave(ran + msg, p, left) == Weave(ran, p, left) + msg
  {
    assert (ran + msg)[..p] == ran[..p] && (ran + msg)[p..] == ran[p..] + msg;
  }

  /** Once the place of the old bytes is decided it stays. */
  predicate Follows(w: Way, w': Way) {
    w' == w || (w.Waiting? && w'.Woven? && w'.left == w.left)
  }

  /** What the socket took, then what is buffered, then what a failed write lost, is what was sent, with the old bytes
      in their place. */
  predicate Outgoing(s: Session, w: Way) {
    s.wbuf.Valid() &&
    match w
    case Waiting(left) => s.wbuf.Contents() == left && s.h.delivered + s.h.lost == s.h.ran
    case Woven(p, left) =>
      p <= |s.h.ran| && s.h.delivered + s.wbuf.Contents() + s.h.lost == Weave(s.h.ran, p, left)
  }

  /** While the session is open nothing is lost, and EPOLLOUT is asked for exactly while bytes are buffered, the old
      ones aside. */
  predicate Interest(s: Session, w: Way) {
    && s.wbuf.Valid()
    && (s.phase in {Bound, Open} ==> s.h.lost == [] && (s.writing <==> w.Woven? && s.wbuf.Contents() != []))
  }

  /** The socket had taken all that was sent by then, with the old bytes in their place if it took them. */
  predicate Drained(c: Callback, w: Way)
    requires c.WriteComplete?
  {
    c.delivered == c.ran || (w.Woven? && w.p <= |c.ran| && c.delivered == Weave(c.ran, w.p, w.left))
  }

  predicate CompletionsDrained(t: seq<Callback>, w: Way) {
    forall c | c in t && c.WriteComplete? :: Drained(c, w)
  }

  /** What was consumed, then what is buffered, is what was left over at bind and then received. */
  predicate Incoming(s: Session, stale: seq<byte>) {
    s.rbuf.Valid() && s.h.consumed + s.rbuf.Contents() == stale + s.h.received
  }

  predicate Sending(s: Session, w: Way) {
    Outgoing(s, w) && Interest(s, w) && CompletionsDrained(s.h.trace, w)
  }

  /** stale: what the read buffer held at bind. */
  predicate Good(s: Session, w: Way, stale: seq<byte>) {
    s.Valid() && Lifecycle(s) && Incoming(s, stale) && Sending(s, w)
  }

  lemma BindIsGood(s: Session, etMode: bool)
    requires s.Valid() && s.phase == Free
    ensures Good(Bind(s, etMode), Waiting(s.wbuf.Contents()), s.rbuf.Contents())
    ensures s.wbuf.Contents() == [] ==> Good(Bind(s, etMode), DRAINED, s.rbuf.Contents())
  {}

  // ---------------------------------------------------------------------------
  // Preservation
  // ---------------------------------------------------------------------------

  lemma EatKeeps(s: Session, n: nat, w: Way, stale: seq<byte>)
    requires Good(s, w, stale)
    ensures Good(s.Eat(n), w, stale)
    ensures s.Eat(n) == s.(rbuf := s.Eat(n).rbuf, h := s.h.(consumed := s.Eat(n).h.consumed))
  {}

  /** Bytes join the write buffer b. */
  lemma BufferedKeeps(s: Session, msg: seq<byte>, b: Buf, w: Way, stale: seq<byte>)
    requires s.phase == Open && s.writing && Good(s, w, stale)
    requires b.Valid() && b.Contents() == s.wbuf.Contents() + msg
    ensures Good(s.Ran(msg).(wbuf := b), w, stale)
  {
    WeaveAppend(s.h.ran, msg, w.p, w.left);
  }

  /** A direct write of which the socket takes n bytes; what it leaves joins the write buffer b. */
  lemma ShortWriteKeeps(s: Session, msg: seq<byte>, n: nat, b: Buf, w: Way, stale: seq<byte>)
    requires s.phase == Open && !s.writing && Good(s, w, stale) && w.Woven? && n < |msg|
    requires b.Valid() && b.Contents() == s.wbuf.Contents() + msg[n..]
    ensures Good(s.Ran(msg).Deliver(msg[..n]).(wbuf := b, writing := true), w, stale)
  {
    WeaveAppend(s.h.ran, msg, w.p, w.left);
    assert msg == msg[..n] + msg[n..];
  }

  /** The first such write decides where the old bytes stand. */
  lemma ShortWriteDecides(s: Session, msg: seq<byte>, n: nat, b: Buf, w: Way, stale: seq<byte>) returns (w': Way)
    requires s.phase == Open && !s.writing && Good(s, w, stale) && w.Waiting? && n < |msg|
    requires b.Valid() && b.Contents() == s.wbuf.Contents() + msg[n..]
    ensures Follows(w, w') && Good(s.Ran(msg).Deliver(msg[..n]).(wbuf := b, writing := true), w', stale)
  {
    w' := Woven(|s.h.ran| + n, w.left);
    var ran := s.h.ran + msg;
    assert ran[..w'.p] == s.h.delivered + msg[..n] && ran[w'.p..] == msg[n..];
  }

  /** A direct write that the socket takes whole. */
  lemma FullWriteKeeps(s: Session, msg: seq<byte>, w: Way, stale: seq<byte>)
    requires s.phase == Open && !s.writing && Good(s, w, stale)
    ensures var s2 := s.Ran(msg).Deliver(msg[..|msg|]);
            Good(s2.Completed(), w, stale)
  {
    assert msg[..|msg|] == msg;
    if w.Woven? { WeaveAppend(s.h.ran, msg, w.p, w.left); }
  }

  /** A direct write that fails. */
  lemma LostWriteKeeps(s: Session, msg: seq<byte>, w: Way, stale: seq<byte>)
    requires s.phase == Open && !s.writing && Good(s, w, stale)
    ensures Outgoing(s.Ran(msg).Lose(msg), w)
  {
    if w.Woven? { WeaveAppend(s.h.ran, msg, w.p, w.left); }
  }

  lemma {:induction false} RunScriptKeeps(s: Session, a: Script, w: Way, stale: seq<byte>) returns (w': Way)
    requires s.phase != Bound && Good(s, w, stale)
    ensures Follows(w, w') && Good(RunScript(s, a), w', stale)
    decreases a, 1
  {
    match a
    case Done => w' := w;
    case Send(_, _, _, _, next) =>
      w' := WriteFunctorKeeps(s, a, w, stale);
      w' := RunScriptKeeps(WriteFunctor(s, a), next, w', stale);
    case Close(onClose, next) =>
      w' := CloseEventKeeps(s, onClose, w, stale);
      w' := RunScriptKeeps(CloseEvent(s, onClose), next, w', stale);
    case Consume(n, next) =>
      EatKeeps(s, n, w, stale);
      w' := RunScriptKeeps(s.Eat(n), next, w, stale);
  }

  lemma {:induction false} WriteFunctorKeeps(s: Session, a: Script, w: Way, stale: seq<byte>) returns (w': Way)
    requires s.phase != Bound && a.Send? && Good(s, w, stale)
    ensures Follows(w, w') && Good(WriteFunctor(s, a), w', stale)
    decreases a, 0
  {
    w' := w;
    if s.phase != Open {
    } else if s.writing {
      BufferedKeeps(s, a.msg, s.wbuf.Write(a.msg), w, stale);
    } else if a.res.Fatal? {
      LostWriteKeeps(s, a.msg, w, stale);
      w' := CloseEventKeepsLost(s.Ran(a.msg).Lose(a.msg), a.onClose, w, stale);
    } else {
      var n := Taken(a.res, |a.msg|);
      if n < |a.msg| {
        var b := s.wbuf.Write(a.msg[n..]);
        if w.Woven? { ShortWriteKeeps(s, a.msg, n, b, w, stale); }
        else { w' := ShortWriteDecides(s, a.msg, n, b, w, stale); }
      } else {
        FullWriteKeeps(s, a.msg, w, stale);
        var s2 := s.Ran(a.msg).Deliver(a.msg[..n]);
        w' := RunScriptKeeps(s2.Completed(), a.onComplete, w, stale);
      }
    }
  }

  lemma CloseEventKeeps(s: Session, onClose: Script, w: Way, stale: seq<byte>) returns (w': Way)
    requires s.phase != Bound && Good(s, w, stale)
    ensures Follows(w, w') && Good(CloseEvent(s, onClose), w', stale)
    decreases onClose, 3
  {
    w' := w;
    if s.phase == Open { w' := CloseEventKeepsLost(s, onClose, w, stale); }
  }

  /** The same when a failed write may just have lost its message. */
  lemma {:induction false} CloseEventKeepsLost(s: Session, onClose: Script, w: Way, stale: seq<byte>) returns (w': Way)
    requires s.phase == Open && s.Valid() && Lifecycle(s) && Incoming(s, stale)
    requires Outgoing(s, w) && CompletionsDrained(s.h.trace, w)
    ensures Follows(w, w') && Good(CloseEvent(s, onClose), w', stale)
    decreases onClose, 2
  {
    var s1 := s.(phase := Closing).Note(Disconnected);
    assert s1.h.trace[..|s1.h.trace| - 1] == s.h.trace;
    w' := RunScriptKeeps(s1, onClose, w, stale);
  }

  /** The socket takes n of the buffered bytes, not all. */
  lemma FlushKeeps(s: Session, n: nat, w: Way, stale: seq<byte>)
    requires s.phase == Open && s.writing && Good(s, w, stale) && n < s.wbuf.Readable()
    ensures Good(s.Flush(n), w, stale)
  {}

  /** The socket takes all of them. */
  lemma DrainKeeps(s: Session, w: Way, stale: seq<byte>)
    requires s.phase == Open && s.writing && Good(s, w, stale)
    ensures s.Flush(s.wbuf.Readable()).wbuf.Contents() == []
    ensures Good(s.Flush(s.wbuf.Readable()).(writing := false).Completed(), w, stale)
  {}

  lemma FlushedKeeps(s: Session, n: nat, onComplete: Script, w: Way, stale: seq<byte>) returns (w': Way)
    requires s.phase == Open && s.writing && Good(s, w, stale) && n <= s.wbuf.Readable()
    ensures Follows(w, w') && Good(Flushed(s, n, onComplete), w', stale)
  {
    w' := w;
    if n < s.wbuf.Readable() {
      FlushKeeps(s, n, w, stale);
    } else {
      DrainKeeps(s, w, stale);
      w' := RunScriptKeeps(s.Flush(n).(writing := false).Completed(), onComplete, w, stale);
    }
  }

  lemma WriteOnceKeeps(s: Session, res: WriteResult, onComplete: Script, onClose: Script, w: Way, stale: seq<byte>)
    returns (w': Way)
    requires s.phase == Open && s.writing && Good(s, w, stale)
    ensures Follows(w, w') && Good(WriteOnce(s, res, onComplete, onClose), w', stale)
  {
    w' := w;
    if s.wbuf.Readable() > 0 {
      if res.Fatal? {
        w' := CloseEventKeeps(s, onClose, w, stale);
      } else if res.Took? {
        w' := FlushedKeeps(s, Taken(res, s.wbuf.Readable()), onComplete, w, stale);
      }
    }
  }

  lemma WriteEventKeeps(s: Session, res: WriteResult, onComplete: Script, onClose: Script, w: Way, stale: seq<byte>)
    returns (w': Way)
    requires s.phase == Open && s.writing && Good(s, w, stale)
    ensures Follows(w, w') && Good(WriteEvent(s, res, onComplete, onClose), w', stale)
  {
    w' := WriteOnceKeeps(s, res, onComplete, onClose, w, stale);
  }

  lemma ReceivedKeeps(s: Session, bytes: seq<byte>, w: Way, stale: seq<byte>)
    requires s.phase == Open && Good(s, w, stale) && |bytes| <= s.rbuf.Writeable()
    ensures Good(Received(s, bytes), w, stale)
  {
    assert (stale + s.h.received) + bytes == stale + (s.h.received + bytes);
  }

  lemma ReadTurnKeeps(s: Session, r: ReadResult, w: Way, stale: seq<byte>) returns (w': Way)
    requires s.phase == Open && Good(s, w, stale)
    ensures Follows(w, w') && Good(ReadTurn(s, r), w', stale)
  {
    match r
    case ReadAgain => w' := w;
    case Eof(onClose) => w' := CloseEventKeeps(s, onClose, w, stale);
    case ReadFatal(onClose) => w' := CloseEventKeeps(s, onClose, w, stale);
    case Got(first, rest, onMessage) =>
      var bytes := Cut([first] + rest, s.rbuf.Writeable());
      ReceivedKeeps(s, bytes, w, stale);
      w' := RunScriptKeeps(Received(s, bytes), onMessage, w, stale);
  }

  lemma {:induction false} ReadEventKeeps(s: Session, rs: seq<ReadResult>, w: Way, stale: seq<byte>) returns (w': Way)
    requires s.phase == Open && Good(s, w, stale)
    ensures Follows(w, w') && Good(ReadEvent(s, rs), w', stale)
    decreases |rs|
  {
    w' := w;
    if rs != [] {
      w' := ReadTurnKeeps(s, rs[0], w, stale);
      var s1 := ReadTurn(s, rs[0]);
      if rs[0].Got? && s1.phase == Open && s.etMode { w' := ReadEventKeeps(s1, rs[1..], w', stale); }
    }
  }

  lemma StepKeeps(s: Session, e: Event, w: Way, stale: seq<byte>) returns (w': Way)
    requires Good(s, w, stale)
    ensures Follows(w, w') && Good(Step(s, e), w', stale)
  {
    w' := w;
    if Enabled(s, e) {
      match e
      case Register(onConnect) => w' := RunScriptKeeps(s.(phase := Open).Note(Connected), onConnect, w, stale);
      case Task(script) => w' := RunScriptKeeps(s, script, w, stale);
      case Readable(rs) => w' := ReadEventKeeps(s, rs, w, stale);
      case Writable(res, onComplete, onClose) => w' := WriteEventKeeps(s, res, onComplete, onClose, w, stale);
      case HangUp(onClose) => w' := CloseEventKeeps(s, onClose, w, stale);
    }
  }

  lemma {:induction false} RunKeeps(s: Session, es: seq<Event>, w: Way, stale: seq<byte>) returns (w': Way)
    requires Good(s, w, stale)
    ensures Follows(w, w') && Good(Run(s, es), w', stale)
    decreases es
  {
    w' := w;
    if es != [] {
      w' := StepKeeps(s, es[0], w, stale);
      w' := RunKeeps(Step(s, es[0]), es[1..], w', stale);
    }
  }

  /** In every run of a session the old bytes get one place. */
  lemma SessionKeeps(s: Session, etMode: bool, es: seq<Event>) returns (w: Way)
    requires s.Valid() && s.phase == Free
    ensures Good(Run(Bind(s, etMode), es), w, s.rbuf.Contents())
    ensures w.left == s.wbuf.Contents() && (s.wbuf.Contents() == [] ==> w == DRAINED)
  {
    BindIsGood(s, etMode);
    var start := if s.wbuf.Contents() == [] then DRAINED else Waiting(s.wbuf.Contents());
    w := RunKeeps(Bind(s, etMode), es, start, s.rbuf.Contents());
  }

  // ---------------------------------------------------------------------------
  // Theorems about all sessions of a connection
  // ---------------------------------------------------------------------------

  /** Outgoing stream: what the socket has taken, what is buffered and what a failed write lost are all messages whose
      functor ran, in order, with what the write buffer held at bind inserted as one piece. */
  lemma OutgoingStreamOfAnySession(s: Session, etMode: bool, es: seq<Event>) returns (p: nat)
    requires s.Valid() && s.phase == Free
    ensures var f := Run(Bind(s, etMode), es);
            && p <= |f.h.ran|
            && f.h.delivered + f.wbuf.Contents() + f.h.lost == Weave(f.h.ran, p, s.wbuf.Contents())
            && (f.phase == Open ==> f.h.lost == [])
  {
    var w := SessionKeeps(s, etMode, es);
    var f := Run(Bind(s, etMode), es);
    match w
    case Woven(q, _) => p := q;
    case Waiting(left) =>
      p := |f.h.delivered|;
      assert f.h.ran[..p] == f.h.delivered && f.h.ran[p..] == f.h.lost;
  }

  /** So in a session that began with an empty write buffer the socket has taken a prefix of all messages whose functor
      ran, the buffer holds the rest, and while it is open nothing is missing. */
  lemma OutgoingStream(s: Session, etMode: bool, es: seq<Event>)
    requires s.Valid() && s.phase == Free && s.wbuf.Contents() == []
    ensures var f := Run(Bind(s, etMode), es);
            && f.h.delivered + f.wbuf.Contents() + f.h.lost == f.h.ran
            && (f.phase == Open ==> f.h.delivered + f.wbuf.Contents() == f.h.ran)
  {
    var p := OutgoingStreamOfAnySession(s, etMode, es);
  }

  /** Write interest: isWriting_ holds exactly while bytes are buffered. */
  lemma WriteInterest(s: Session, etMode: bool, es: seq<Event>)
    requires s.Valid() && s.phase == Free && s.wbuf.Contents() == []
    ensures var f := Run(Bind(s, etMode), es);
            f.phase == Open ==> (f.writing <==> f.wbuf.Contents() != [])
  {
    var w := SessionKeeps(s, etMode, es);
  }

  /** Completion means drained: whenever the write-complete callback was invoked, the socket had taken every byte sent
      by then, and besides nothing or, as one piece, what the write buffer held at bind. */
  lemma CompletionMeansDrained(s: Session, etMode: bool, es: seq<Event>, c: Callback)
    requires s.Valid() && s.phase == Free
    requires c in Run(Bind(s, etMode), es).h.trace && c.WriteComplete?
    ensures c.delivered == c.ran
            || exists p: nat :: p <= |c.ran| && c.delivered == Weave(c.ran, p, s.wbuf.Contents())
    ensures s.wbuf.Contents() == [] ==> c.delivered == c.ran
  {
    var w := SessionKeeps(s, etMode, es);
    assert Drained(c, w);
  }

  /** Incoming stream: nothing received is lost, repeated or reordered, and every read is offered 4096 bytes. */
  lemma IncomingStream(s: Session, etMode: bool, es: seq<Event>)
    requires s.Valid() && s.phase == Free
    ensures var f := Run(Bind(s, etMode), es);
            && f.h.consumed + f.rbuf.Contents() == s.rbuf.Contents() + f.h.received
            && f.rbuf.Writeable() >= READ_ROOM
  {
    var w := SessionKeeps(s, etMode, es);
  }

  /** Session trace: Connected, then messages and completions, then one Disconnected if the session ended.
      The connection goes back to the pool once per ended session, and never before. */
  lemma SessionTrace(s: Session, etMode: bool, es: seq<Event>)
    requires s.Valid() && s.phase == Free
    ensures var f := Run(Bind(s, etMode), es);
            && (f.phase == Free ==> Ended(f.h.trace) && f.h.returned == 1)
            && (f.phase == Open ==> Talking(f.h.trace))
            && (f.phase == Bound ==> f.h.trace == [])
            && (f.phase != Free ==> f.h.returned == 0)
            && f.phase != Closing
  {
    var w := SessionKeeps(s, etMode, es);
    NeverClosingBetweenSteps(Bind(s, etMode), es);
  }

  /** A session in the middle of some run. */
  ghost predicate Live(s: Session) {
    s.phase in {Bound, Open} && exists w: Way, stale: seq<byte> :: Good(s, w, stale)
  }

  lemma BindIsLive(s: Session, etMode: bool)
    requires s.Valid() && s.phase == Free
    ensures Live(Bind(s, etMode))
  {
    BindIsGood(s, etMode);
  }

  /** However it goes on, it stays live until it ends, and then returnConnection has been called once. */
  lemma LiveUntilReturned(s: Session, es: seq<Event>)
    requires Live(s)
    ensures var f := Run(s, es);
            if f.phase == Free then f.h.returned == 1 else Live(f) && f.h.returned == 0
  {
    var w, stale :| Good(s, w, stale);
    var w' := RunKeeps(s, es, w, stale);
    NeverClosingBetweenSteps(s, es);
  }

  lemma {:induction false} NeverClosingBetweenSteps(s: Session, es: seq<Event>)
    requires s.Valid() && s.phase != Closing
    ensures Run(s, es).phase != Closing
    decreases es
  {
    if es != [] { NeverClosingBetweenSteps(Step(s, es[0]), es[1..]); }
  }

  /** The Disconnected callback may call send and close; neither does anything any more. */
  lemma {:induction false} ClosingIsQuiet(s: Session, a: Script)
    requires s.Valid() && s.phase in {Closing, Free}
    ensures RunScript(s, a) == s.(rbuf := RunScript(s, a).rbuf, h := s.h.(consumed := RunScript(s, a).h.consumed))
    decreases a
  {
    match a
    case Done =>
    case Send(_, _, _, _, next) => ClosingIsQuiet(s, next);
    case Close(_, next) => ClosingIsQuiet(s, next);
    case Consume(n, next) => ClosingIsQuiet(s.Eat(n), next);
  }

  /** A session that ended with everything delivered leaves the next one an empty write buffer. */
  lemma DrainedEndStaysDrained(s: Session, etMode: bool, es: seq<Event>)
    requires s.Valid() && s.phase == Free && s.wbuf.Contents() == []
    ensures var f := Run(Bind(s, etMode), es);
            f.h.delivered == f.h.ran ==> f.wbuf.Contents() == [] && f.h.lost == []
  {
    OutgoingStream(s, etMode, es);
    var f := Run(Bind(s, etMode), es);
    assert |f.h.ran| == |f.h.delivered| + |f.wbuf.Contents()| + |f.h.lost|;
  }

  // ---------------------------------------------------------------------------
  // One connection object, session after session
  // ---------------------------------------------------------------------------

  datatype Sitting = Sitting(etMode: bool, es: seq<Event>)

  function Sit(s: Session, t: Sitting): (f: Session)
    requires s.Valid() && s.phase == Free
    ensures f.Valid()
  {
    Run(Bind(s, t.etMode), t.es)
  }

  /** Each session ended, with everything delivered. */
  predicate AllEndDrained(s: Session, ts: seq<Sitting>)
    requires s.Valid() && s.phase == Free
    decreases ts
  {
    ts == [] ||
    var f := Sit(s, ts[0]);
    f.phase == Free && f.h.delivered == f.h.ran && AllEndDrained(f, ts[1..])
  }

  function AfterAll(s: Session, ts: seq<Sitting>): (f: Session)
    requires s.Valid() && s.phase == Free && AllEndDrained(s, ts)
    ensures f.Valid() && f.phase == Free
    decreases ts
  {
    if ts == [] then s else AfterAll(Sit(s, ts[0]), ts[1..])
  }

  lemma {:induction false} DrainedAfterAll(s: Session, ts: seq<Sitting>)
    requires s.Valid() && s.phase == Free && AllEndDrained(s, ts) && s.wbuf.Contents() == []
    ensures AfterAll(s, ts).wbuf.Contents() == []
    decreases ts
  {
    if ts != [] {
      DrainedEndStaysDrained(s, ts[0].etMode, ts[0].es);
      DrainedAfterAll(Sit(s, ts[0]), ts[1..]);
    }
  }

  /** However often a connection object was reused, if every earlier session ended drained then the stream of the
      next one is intact. */
  lemma ReuseKeepsStreamIntact(ts: seq<Sitting>, t: Sitting)
    requires AllEndDrained(NEW_CONNECTION, ts)
    ensures var f := Sit(AfterAll(NEW_CONNECTION, ts), t);
            f.h.delivered + f.wbuf.Contents() + f.h.lost == f.h.ran
  {
    DrainedAfterAll(NEW_CONNECTION, ts);
    OutgoingStream(AfterAll(NEW_CONNECTION, ts), t.etMode, t.es);
  }

  // ---------------------------------------------------------------------------
  // The write buffer is not cleared between sessions
  // ---------------------------------------------------------------------------

  /** A send that the kernel refuses, and then a flush of the whole buffer. */
  function FlushOnce(msg: seq<byte>, size: nat): seq<Event> {
    [Register(Done), Task(Send(msg, Again, Done, Done, Done)), Writable(Took(size), Done, Done)]
  }

  /** A send that the kernel refuses leaves its message in the buffer. */
  lemma RefusedSend(s: Session, msg: seq<byte>)
    requires s.Valid() && s.phase == Open && !s.writing && !s.crashed && msg != []
    ensures Step(s, Task(Send(msg, Again, Done, Done, Done))) == s.Ran(msg).Deliver([]).Buffered(msg).(writing := true)
  {
    var a := Send(msg, Again, Done, Done, Done);
    assert msg[0..] == msg && msg[..0] == [];
    assert RunScript(s, a) == RunScript(WriteFunctor(s, a), Done);
  }

  /** The state after registration and such a send. */
  lemma RefusedFirst(s: Session, etMode: bool, msg: seq<byte>)
    requires s.Valid() && s.phase == Free && !s.crashed && msg != []
    ensures var s2 := Step(Step(Bind(s, etMode), Register(Done)), Task(Send(msg, Again, Done, Done, Done)));
            && s2.phase == Open && s2.writing && !s2.crashed
            && s2.wbuf.Valid() && s2.wbuf.Contents() == s.wbuf.Contents() + msg
            && s2.h.ran == msg && s2.h.delivered == []
  {
    var s1 := Bind(s, etMode).(phase := Open).Note(Connected);
    assert Step(Bind(s, etMode), Register(Done)) == s1;
    RefusedSend(s1, msg);
  }

  /** A write event for which the socket takes all that waits. */
  lemma DrainingStep(s: Session)
    requires s.Valid() && s.phase == Open && s.writing && !s.crashed && s.wbuf.Contents() != []
    ensures var f := Step(s, Writable(Took(|s.wbuf.Contents()|), Done, Done));
            f.h.delivered == s.h.delivered + s.wbuf.Contents() && f.h.ran == s.h.ran
  {
    var q := s.wbuf.Contents();
    assert Taken(Took(|q|), |q|) == |q| && q[..|q|] == q;
  }

  lemma StaleBytesAreDelivered(s: Session, etMode: bool, msg: seq<byte>)
    requires s.Valid() && s.phase == Free && !s.crashed && msg != []
    ensures var f := Run(Bind(s, etMode), FlushOnce(msg, |s.wbuf.Contents()| + |msg|));
            f.h.delivered == s.wbuf.Contents() + msg && f.h.ran == msg
  {
    var size := |s.wbuf.Contents()| + |msg|;
    var a := Send(msg, Again, Done, Done, Done);
    RefusedFirst(s, etMode, msg);
    DrainingStep(Step(Step(Bind(s, etMode), Register(Done)), Task(a)));
    RunThree(Bind(s, etMode), Register(Done), Task(a), Writable(Took(size), Done, Done));
  }

  /** A session can end with bytes in its buffer: the kernel refuses a send and then the peer hangs up. */
  lemma SessionsCanEndUndrained(etMode: bool, msg: seq<byte>)
    requires msg != []
    ensures var f := Run(Bind(NEW_CONNECTION, etMode),
                         [Register(Done), Task(Send(msg, Again, Done, Done, Done)), HangUp(Done)]);
            f.phase == Free && !f.crashed && f.wbuf.Contents() == msg && f.h.delivered == []
  {
    var a := Send(msg, Again, Done, Done, Done);
    RefusedFirst(NEW_CONNECTION, etMode, msg);
    ClosingIsQuiet(Step(Step(Bind(NEW_CONNECTION, etMode), Register(Done)), Task(a)).(phase := Closing), Done);
    RunThree(Bind(NEW_CONNECTION, etMode), Register(Done), Task(a), HangUp(Done));
  }

  lemma {:induction false} RunAppend(s: Session, es: seq<Event>, more: seq<Event>)
    requires s.Valid()
    ensures Run(s, es + more) == Run(Run(s, es), more)
    decreases es
  {
    if es == [] {
      assert es + more == more;
    } else {
      assert (es + more)[1..] == es[1..] + more;
      RunAppend(Step(s, es[0]), es[1..], more);
    }
  }

  lemma RunTwo(s: Session, e1: Event, e2: Event)
    requires s.Valid()
    ensures Run(s, [e1, e2]) == Step(Step(s, e1), e2)
  {
    assert [e1, e2][1..] == [e2] && [e2][1..] == [];
    assert Run(Step(s, e1), [e2]) == Run(Step(Step(s, e1), e2), []);
  }

  lemma RunThree(s: Session, e1: Event, e2: Event, e3: Event)
    requires s.Valid()
    ensures Run(s, [e1, e2, e3]) == Step(Step(Step(s, e1), e2), e3)
  {
    var es := [e1, e2, e3];
    assert es[1..] == [e2, e3] && [e2, e3][1..] == [e3] && [e3][1..] == [];
    assert Run(Step(s, e1), [e2, e3]) == Run(Step(Step(s, e1), e2), [e3]);
    assert Run(Step(Step(Step(s, e1), e2), e3), []) == Step(Step(Step(s, e1), e2), e3);
  }

  /** In every run of a session the socket takes a prefix of what was sent,
      if and only if the write buffer was empty at bind. */
  lemma StreamIntegrityIffDrainedAtBind(s: Session, etMode: bool)
    requires s.Valid() && s.phase == Free && !s.crashed
    ensures (forall es: seq<Event> :: Run(Bind(s, etMode), es).h.delivered <= Run(Bind(s, etMode), es).h.ran)
            <==> s.wbuf.Contents() == []
  {
    if s.wbuf.Contents() == [] {
      forall es: seq<Event>
        ensures Run(Bind(s, etMode), es).h.delivered <= Run(Bind(s, etMode), es).h.ran
      {
        OutgoingStream(s, etMode, es);
      }
    } else {
      var msg: seq<byte> := [0];
      StaleBytesAreDelivered(s, etMode, msg);
      var es := FlushOnce(msg, |s.wbuf.Contents()| + |msg|);
      assert |Run(Bind(s, etMode), es).h.delivered| > |Run(Bind(s, etMode), es).h.ran|;
    }
  }
}
