/** When a session loses a message: the functor of a direct write that fails closes the session and drops what it was
    given (potato/net/TcpConnection.cpp, lines 153 to 157). */
module SessionLosses {
  import opened Endian
  import opened Session
  import opened SessionProofs
  import opened SessionFates

  /** Whether a script reaches a fatal direct send of a non-empty message. */
  function Loses(a: Script, writing: bool): bool {
    match a
    case Done => false
    case Consume(_, next) => Loses(next, writing)
    case Close(_, _) => false
    case Send(msg, res, onComplete, _, next) =>
      if writing then Loses(next, true)
      else if res.Fatal? then msg != []
      else if Taken(res, |msg|) != |msg| then Loses(next, true)
      else
        var f := FateOf(onComplete, false);
        Loses(onComplete, false) || (!f.closed && Loses(next, f.writing))
  }

  /** Nothing has been lost, or one message has and the session is over. */
  predicate LostAtEnd(s: Session) {
    s.h.lost != [] ==> s.phase == Free
  }

  lemma {:induction false} ScriptLoses(s: Session, a: Script)
    requires s.Valid() && s.phase == Open && s.h.lost == []
    ensures RunScript(s, a).h.lost != [] <==> Loses(a, s.writing)
    ensures LostAtEnd(RunScript(s, a))
    decreases a, 1
  {
    match a
    case Done =>
    case Close(onClose, next) =>
      ClosingIsQuiet(s.(phase := Closing).Note(Disconnected), onClose);
      ClosingIsQuiet(CloseEvent(s, onClose), next);
    case Consume(n, next) => ScriptLoses(s.Eat(n), next);
    case Send(_, _, _, _, next) =>
      var s1 := WriteFunctor(s, a);
      SendLoses(s, a);
      SendMeetsFate(s, a);
      LosesOfSend(a, s.writing);
      if s1.phase == Open { ScriptLoses(s1, next); } else { ClosingIsQuiet(s1, next); }
  }

  lemma LosesOfSend(a: Script, writing: bool)
    requires a.Send?
    ensures var f := FateOf(Alone(a), writing);
            Loses(a, writing) <==> Loses(Alone(a), writing) || (!f.closed && Loses(a.next, f.writing))
  {}

  lemma {:induction false} SendLoses(s: Session, a: Script)
    requires s.Valid() && s.phase == Open && s.h.lost == [] && a.Send?
    ensures WriteFunctor(s, a).h.lost != [] <==> Loses(Alone(a), s.writing)
    ensures LostAtEnd(WriteFunctor(s, a))
    decreases a, 0
  {
    if !s.writing {
      var s1 := s.Ran(a.msg);
      if a.res.Fatal? {
        ClosingIsQuiet(s1.Lose(a.msg).(phase := Closing).Note(Disconnected), a.onClose);
      } else {
        var n := Taken(a.res, |a.msg|);
        if n == |a.msg| {
          ScriptLoses(s1.Deliver(a.msg[..n]).Completed(), a.onComplete);
        }
      }
    }
  }

  // ---------------------------------------------------------------------------
  // Events
  // ---------------------------------------------------------------------------

  function LosesReading(rs: seq<ReadResult>, etMode: bool, writing: bool): bool {
    if rs == [] || !rs[0].Got? then false
    else
      var f := FateOf(rs[0].onMessage, writing);
      Loses(rs[0].onMessage, writing) || (!f.closed && etMode && LosesReading(rs[1..], etMode, f.writing))
  }

  lemma {:induction false} ReadEventLoses(s: Session, rs: seq<ReadResult>)
    requires s.Valid() && s.phase == Open && s.h.lost == []
    ensures ReadEvent(s, rs).h.lost != [] <==> LosesReading(rs, s.etMode, s.writing)
    ensures LostAtEnd(ReadEvent(s, rs))
    decreases |rs|
  {
    if rs != [] {
      match rs[0] {
        case Got(first, rest, onMessage) =>
          ReadTurnMeetsFate(s, rs[0]);
          ScriptLoses(Received(s, Cut([first] + rest, s.rbuf.Writeable())), onMessage);
          var s1 := ReadTurn(s, rs[0]);
          if s1.phase == Open && s.etMode { ReadEventLoses(s1, rs[1..]); }
        case Eof(onClose) => ClosingIsQuiet(s.(phase := Closing).Note(Disconnected), onClose);
        case ReadFatal(onClose) => ClosingIsQuiet(s.(phase := Closing).Note(Disconnected), onClose);
        case ReadAgain =>
      }
    }
  }

  lemma FlushedLoses(s: Session, n: nat, onComplete: Script)
    requires s.Valid() && s.phase == Open && s.h.lost == [] && n <= s.wbuf.Readable()
    ensures Flushed(s, n, onComplete).h.lost != [] <==> n == s.wbuf.Readable() && Loses(onComplete, false)
    ensures LostAtEnd(Flushed(s, n, onComplete))
  {
    if n == s.wbuf.Readable() { ScriptLoses(s.Flush(n).(writing := false).Completed(), onComplete); }
  }

  lemma WriteEventLoses(s: Session, res: WriteResult, onComplete: Script, onClose: Script)
    requires s.Valid() && s.phase == Open && s.writing && s.h.lost == [] && s.wbuf.Contents() != []
    ensures WriteEvent(s, res, onComplete, onClose).h.lost != [] <==>
              && res.Took? && Taken(res, s.wbuf.Readable()) == s.wbuf.Readable()
              && Loses(onComplete, false)
    ensures LostAtEnd(WriteEvent(s, res, onComplete, onClose))
  {
    FlushedLoses(s, Taken(res, s.wbuf.Readable()), onComplete);
    if res.Fatal? { ClosingIsQuiet(s.(phase := Closing).Note(Disconnected), onClose); }
  }

  /** The event makes user code reach such a send. */
  predicate LosesAt(s: Session, e: Event)
    requires s.Valid()
  {
    Enabled(s, e) &&
    match e
    case Register(onConnect) => Loses(onConnect, s.writing)
    case Task(script) => s.phase == Open && Loses(script, s.writing)
    case Readable(rs) => LosesReading(rs, s.etMode, s.writing)
    case Writable(res, onComplete, _) =>
      && res.Took? && Taken(res, s.wbuf.Readable()) == s.wbuf.Readable()
      && Loses(onComplete, false)
    case HangUp(_) => false
  }

  predicate LosslessRun(s: Session, es: seq<Event>)
    requires s.Valid()
    decreases es
  {
    es == [] || (!LosesAt(s, es[0]) && LosslessRun(Step(s, es[0]), es[1..]))
  }

  lemma StepLoses(s: Session, e: Event)
    requires s.Valid() && Waits(s) && s.h.lost == []
    ensures Step(s, e).h.lost != [] <==> LosesAt(s, e)
    ensures LostAtEnd(Step(s, e))
  {
    if Enabled(s, e) {
      match e
      case Register(onConnect) => ScriptLoses(s.(phase := Open).Note(Connected), onConnect);
      case Task(script) => if s.phase == Open { ScriptLoses(s, script); } else { ClosingIsQuiet(s, script); }
      case Readable(rs) => ReadEventLoses(s, rs);
      case Writable(res, onComplete, onClose) => WriteEventLoses(s, res, onComplete, onClose);
      case HangUp(onClose) => ClosingIsQuiet(s.(phase := Closing).Note(Disconnected), onClose);
    }
  }

  // ---------------------------------------------------------------------------
  // Runs
  // ---------------------------------------------------------------------------

  lemma {:induction false} StaysFree(s: Session, es: seq<Event>)
    requires s.Valid() && s.phase == Free
    ensures Run(s, es).h.lost == s.h.lost
    decreases es
  {
    if es != [] {
      if es[0].Task? { ClosingIsQuiet(s, es[0].script); }
      StaysFree(Step(s, es[0]), es[1..]);
    }
  }

  lemma {:induction false} LossFrom(s: Session, es: seq<Event>)
    requires s.Valid() && Waits(s) && s.h.lost == []
    ensures Run(s, es).h.lost == [] <==> LosslessRun(s, es)
    decreases es
  {
    if es != [] {
      StepLoses(s, es[0]);
      StepWaits(s, es[0]);
      if LosesAt(s, es[0]) {
        StaysFree(Step(s, es[0]), es[1..]);
      } else {
        LossFrom(Step(s, es[0]), es[1..]);
      }
    }
  }

  /** At the end of a run, delivered then buffered bytes are all that was sent, with what the write buffer held at bind
      inserted as one piece, if and only if no event made user code reach a fatal direct send of a non-empty message. */
  lemma StreamCompleteIffLossless(s: Session, etMode: bool, es: seq<Event>)
    requires s.Valid() && s.phase == Free
    ensures var f := Run(Bind(s, etMode), es);
            (exists p: nat :: p <= |f.h.ran|
                              && f.h.delivered + f.wbuf.Contents() == Weave(f.h.ran, p, s.wbuf.Contents()))
            <==> LosslessRun(Bind(s, etMode), es)
    ensures var f := Run(Bind(s, etMode), es);
            s.wbuf.Contents() == [] ==>
              (f.h.delivered + f.wbuf.Contents() == f.h.ran <==> LosslessRun(Bind(s, etMode), es))
  {
    var p := OutgoingStreamOfAnySession(s, etMode, es);
    LossFrom(Bind(s, etMode), es);
    var f := Run(Bind(s, etMode), es);
    var sent := f.h.delivered + f.wbuf.Contents();
    assert |sent| + |f.h.lost| == |f.h.ran| + |s.wbuf.Contents()|;
    if f.h.lost == [] { assert sent == Weave(f.h.ran, p, s.wbuf.Contents()); }
  }

  /** The shortest such run: the kernel fails the first send. */
  lemma FatalSendLosesItsMessage(etMode: bool, msg: seq<byte>)
    ensures var f := Run(Bind(NEW_CONNECTION, etMode), [Register(Done), Task(Send(msg, Fatal, Done, Done, Done))]);
            f.h.ran == msg && f.h.delivered == [] && f.wbuf.Contents() == [] && f.phase == Free && !f.crashed
  {
    var b := Bind(NEW_CONNECTION, etMode);
    var a := Send(msg, Fatal, Done, Done, Done);
    var s1 := b.(phase := Open).Note(Connected);
    assert RunScript(s1, a) == RunScript(WriteFunctor(s1, a), Done);
    assert WriteFunctor(s1, a) == CloseEvent(s1.Ran(msg).Lose(msg), Done);
    RunTwo(b, Register(Done), Task(a));
  }
}
