/** What user code does to a session, from the kernel's answers alone. No assumption is made about how the session
    began: its write buffer may still hold bytes of an earlier one. */
module SessionFates {
  import opened Session
  import opened SessionProofs

  /** Whether a script closes the session, and whether EPOLLOUT is asked for when it does, or at its end. */
  datatype Fate = Fate(closed: bool, writing: bool)

  function FateOf(a: Script, writing: bool): Fate {
    match a
    case Done => Fate(false, writing)
    case Consume(_, next) => FateOf(next, writing)
    case Close(_, _) => Fate(true, writing)
    case Send(msg, res, onComplete, _, next) =>
      if writing then FateOf(next, true)
      else if res.Fatal? then Fate(true, false)
      else if Taken(res, |msg|) != |msg| then FateOf(next, true)
      else
        var f := FateOf(onComplete, false);
        if f.closed then f else FateOf(next, f.writing)
  }

  /** EPOLLOUT is asked for only while bytes wait. This holds in every session. */
  predicate Waits(s: Session) {
    s.wbuf.Valid() && (s.phase in {Bound, Open} && s.writing ==> s.wbuf.Contents() != [])
  }

  /** What the fate f says of the state t that a script led to from s. */
  predicate Meets(s: Session, t: Session, f: Fate) {
    && s.wbuf.Valid() && t.wbuf.Valid()
    && (t.phase == Free) == f.closed
    && (t.phase == Open ==> t.writing == f.writing)
    && (Waits(s) ==> Waits(t))
    && ((s.writing <==> s.wbuf.Contents() != []) ==> (f.writing <==> t.wbuf.Contents() != []))
  }

  lemma {:induction false} ScriptMeetsFate(s: Session, a: Script)
    requires s.Valid() && s.phase == Open
    ensures Meets(s, RunScript(s, a), FateOf(a, s.writing))
    decreases a, 1
  {
    match a
    case Done =>
    case Close(onClose, next) =>
      ClosingIsQuiet(s.(phase := Closing).Note(Disconnected), onClose);
      ClosingIsQuiet(CloseEvent(s, onClose), next);
    case Consume(n, next) => ScriptMeetsFate(s.Eat(n), next);
    case Send(msg, res, onComplete, onClose, next) =>
      var s1 := WriteFunctor(s, a);
      SendMeetsFate(s, a);
      FateOfSend(a, s.writing);
      if s1.phase == Open { ScriptMeetsFate(s1, next); } else { ClosingIsQuiet(s1, next); }
  }

  function Alone(a: Script): Script
    requires a.Send?
  {
    Send(a.msg, a.res, a.onComplete, a.onClose, Done)
  }

  lemma FateOfSend(a: Script, writing: bool)
    requires a.Send?
    ensures var f := FateOf(Alone(a), writing);
            FateOf(a, writing) == if f.closed then f else FateOf(a.next, f.writing)
  {}

  /** The same for the functor of one send, whatever follows it. */
  lemma {:induction false} SendMeetsFate(s: Session, a: Script)
    requires s.Valid() && s.phase == Open && a.Send?
    ensures Meets(s, WriteFunctor(s, a), FateOf(Alone(a), s.writing))
    decreases a, 0
  {
    if !s.writing {
      var s1 := s.Ran(a.msg);
      if a.res.Fatal? {
        ClosingIsQuiet(s1.Lose(a.msg).(phase := Closing).Note(Disconnected), a.onClose);
      } else {
        var n := Taken(a.res, |a.msg|);
        if n == |a.msg| {
          ScriptMeetsFate(s1.Deliver(a.msg[..n]).Completed(), a.onComplete);
        }
      }
    }
  }

  // ---------------------------------------------------------------------------
  // Waits is kept by every run
  // ---------------------------------------------------------------------------

  lemma FlushedWaits(s: Session, n: nat, onComplete: Script)
    requires s.Valid() && s.phase == Open && n <= s.wbuf.Readable()
    ensures Waits(Flushed(s, n, onComplete))
  {
    var s2 := s.Flush(n);
    if s2.wbuf.Readable() == 0 { ScriptMeetsFate(s2.(writing := false).Completed(), onComplete); }
  }

  lemma WriteEventWaits(s: Session, res: WriteResult, onComplete: Script, onClose: Script)
    requires s.Valid() && s.phase == Open && s.writing && Waits(s)
    ensures Waits(WriteEvent(s, res, onComplete, onClose))
  {
    FlushedWaits(s, Taken(res, s.wbuf.Readable()), onComplete);
  }

  lemma ReadTurnMeetsFate(s: Session, r: ReadResult)
    requires s.Valid() && s.phase == Open && r.Got?
    ensures Meets(s, ReadTurn(s, r), FateOf(r.onMessage, s.writing))
  {
    ScriptMeetsFate(Received(s, Cut([r.first] + r.rest, s.rbuf.Writeable())), r.onMessage);
  }

  lemma {:induction false} ReadEventWaits(s: Session, rs: seq<ReadResult>)
    requires s.Valid() && s.phase == Open && Waits(s)
    ensures Waits(ReadEvent(s, rs))
    decreases |rs|
  {
    if rs != [] && rs[0].Got? {
      ReadTurnMeetsFate(s, rs[0]);
      var s1 := ReadTurn(s, rs[0]);
      if s1.phase == Open && s.etMode { ReadEventWaits(s1, rs[1..]); }
    }
  }

  lemma StepWaits(s: Session, e: Event)
    requires s.Valid() && Waits(s)
    ensures Waits(Step(s, e))
  {
    if Enabled(s, e) {
      match e
      case Register(onConnect) => ScriptMeetsFate(s.(phase := Open).Note(Connected), onConnect);
      case Task(script) => if s.phase == Open { ScriptMeetsFate(s, script); }
      case Readable(rs) => ReadEventWaits(s, rs);
      case Writable(res, onComplete, onClose) => WriteEventWaits(s, res, onComplete, onClose);
      case HangUp(_) =>
    }
  }

  // ---------------------------------------------------------------------------
  // When a session ends
  // ---------------------------------------------------------------------------

  /** Whether the read loop reaches end of file, a read error, or a message callback that closes the session. */
  function ReadCloses(rs: seq<ReadResult>, etMode: bool, writing: bool): bool {
    rs != [] &&
    match rs[0]
    case ReadAgain => false
    case Eof(_) => true
    case ReadFatal(_) => true
    case Got(_, _, onMessage) =>
      var f := FateOf(onMessage, writing);
      f.closed || (etMode && ReadCloses(rs[1..], etMode, f.writing))
  }

  lemma {:induction false} ReadEventCloses(s: Session, rs: seq<ReadResult>)
    requires s.Valid() && s.phase == Open
    ensures ReadEvent(s, rs).phase == Free <==> ReadCloses(rs, s.etMode, s.writing)
    decreases |rs|
  {
    if rs != [] && rs[0].Got? {
      ReadTurnMeetsFate(s, rs[0]);
      var s1 := ReadTurn(s, rs[0]);
      if s1.phase == Open && s.etMode { ReadEventCloses(s1, rs[1..]); }
    }
  }

  /** Whether a write event fails, or drains the buffer and runs a completion callback that closes the session. */
  predicate WriteCloses(waiting: nat, res: WriteResult, onComplete: Script) {
    match res
    case Again => false
    case Fatal => true
    case Took(k) => k + 1 >= waiting && FateOf(onComplete, false).closed
  }

  lemma DrainedMeetsFate(s: Session, onComplete: Script)
    requires s.Valid() && s.phase == Open
    ensures Flushed(s, s.wbuf.Readable(), onComplete).phase == Free <==> FateOf(onComplete, false).closed
  {
    ScriptMeetsFate(s.Flush(s.wbuf.Readable()).(writing := false).Completed(), onComplete);
  }

  lemma WriteEventCloses(s: Session, res: WriteResult, onComplete: Script, onClose: Script)
    requires s.Valid() && s.phase == Open && s.writing && s.wbuf.Contents() != []
    ensures WriteEvent(s, res, onComplete, onClose).phase == Free
            <==> WriteCloses(|s.wbuf.Contents()|, res, onComplete)
  {
    if res.Took? && res.k + 1 >= s.wbuf.Readable() { DrainedMeetsFate(s, onComplete); }
  }

  predicate ClosesAt(s: Session, e: Event)
    requires s.Valid()
  {
    Enabled(s, e) &&
    match e
    case Register(onConnect) => FateOf(onConnect, s.writing).closed
    case Task(script) => s.phase == Open && FateOf(script, s.writing).closed
    case Readable(rs) => ReadCloses(rs, s.etMode, s.writing)
    case Writable(res, onComplete, _) => WriteCloses(|s.wbuf.Contents()|, res, onComplete)
    case HangUp(_) => true
  }

  lemma StepCloses(s: Session, e: Event)
    requires s.Valid() && Waits(s) && s.phase in {Bound, Open}
    ensures Step(s, e).phase == Free <==> ClosesAt(s, e)
    ensures Step(s, e).phase != Free ==> Step(s, e).phase in {Bound, Open}
  {
    if Enabled(s, e) {
      match e
      case Register(onConnect) => ScriptMeetsFate(s.(phase := Open).Note(Connected), onConnect);
      case Task(script) => ScriptMeetsFate(s, script);
      case Readable(rs) => ReadEventCloses(s, rs);
      case Writable(res, onComplete, onClose) => WriteEventCloses(s, res, onComplete, onClose);
      case HangUp(_) =>
    }
  }

  /** No event closes the session where it happens. */
  predicate StaysOpen(s: Session, es: seq<Event>)
    requires s.Valid()
    decreases es
  {
    es == [] || (!ClosesAt(s, es[0]) && StaysOpen(Step(s, es[0]), es[1..]))
  }

  lemma {:induction false} FreeStaysFree(s: Session, es: seq<Event>)
    requires s.Valid() && s.phase == Free
    ensures Run(s, es).phase == Free
    decreases es
  {
    if es != [] { FreeStaysFree(Step(s, es[0]), es[1..]); }
  }

  lemma {:induction false} EndsFrom(s: Session, es: seq<Event>)
    requires s.Valid() && Waits(s) && s.phase in {Bound, Open}
    ensures Run(s, es).phase == Free <==> !StaysOpen(s, es)
    decreases es
  {
    if es != [] {
      StepCloses(s, es[0]);
      StepWaits(s, es[0]);
      if ClosesAt(s, es[0]) {
        FreeStaysFree(Step(s, es[0]), es[1..]);
      } else {
        EndsFrom(Step(s, es[0]), es[1..]);
      }
    }
  }

  /** A session has ended exactly when one of its events closed it: a hang-up, end of file, a failed read or write, or
      user code that closes or meets a failed send. */
  lemma SessionEnds(s: Session, etMode: bool, es: seq<Event>)
    requires s.Valid() && s.phase == Free
    ensures Run(Bind(s, etMode), es).phase == Free <==> !StaysOpen(Bind(s, etMode), es)
  {
    EndsFrom(Bind(s, etMode), es);
  }
}
