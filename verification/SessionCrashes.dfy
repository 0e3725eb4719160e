/** When a handler dereferences an ioEvent_ that a callback has reset
    (potato/net/TcpConnection.cpp, lines 96 and 127). */
module SessionCrashes {
  import opened Session
  import opened SessionProofs
  import opened SessionFates

  /** A write event crashes exactly when it drains the buffer and the completion callback then closes the
      session with nothing waiting. A fatal error is harmless there: the buffer is still not empty. */
  lemma WriteEventCrash(s: Session, res: WriteResult, onComplete: Script, onClose: Script)
    requires s.Valid() && s.phase == Open && s.writing && !s.crashed && s.wbuf.Contents() != []
    ensures WriteEvent(s, res, onComplete, onClose).crashed <==>
              && res.Took? && Taken(res, s.wbuf.Readable()) == s.wbuf.Readable()
              && FateOf(onComplete, false) == Fate(true, false)
  {
    if res.Fatal? {
      ClosingIsQuiet(s.(phase := Closing).Note(Disconnected), onClose);
    } else if res.Took? && Taken(res, s.wbuf.Readable()) == s.wbuf.Readable() {
      ScriptMeetsFate(s.Flush(s.wbuf.Readable()).(writing := false).Completed(), onComplete);
    }
  }

  /** Whether a message callback closes the session in some turn of the read loop. */
  function ReadFate(rs: seq<ReadResult>, etMode: bool, writing: bool): bool {
    if rs == [] || !rs[0].Got? then false
    else
      var f := FateOf(rs[0].onMessage, writing);
      f.closed || (etMode && ReadFate(rs[1..], etMode, f.writing))
  }

  /** A read event crashes exactly when a message callback closes the session. */
  lemma {:induction false} ReadEventCrash(s: Session, rs: seq<ReadResult>)
    requires s.Valid() && s.phase == Open && !s.crashed
    ensures ReadEvent(s, rs).crashed <==> ReadFate(rs, s.etMode, s.writing)
    decreases |rs|
  {
    if rs != [] && rs[0].Got? {
      ReadTurnMeetsFate(s, rs[0]);
      var s1 := ReadTurn(s, rs[0]);
      if s1.phase == Open && s.etMode { ReadEventCrash(s1, rs[1..]); }
    }
  }

  // ---------------------------------------------------------------------------
  // Which runs crash
  // ---------------------------------------------------------------------------

  predicate Harmful(s: Session, e: Event)
    requires s.Valid()
  {
    Enabled(s, e) &&
    match e
    case Readable(rs) => ReadFate(rs, s.etMode, s.writing)
    case Writable(res, onComplete, _) =>
      && res.Took? && Taken(res, s.wbuf.Readable()) == s.wbuf.Readable()
      && FateOf(onComplete, false) == Fate(true, false)
    case _ => false
  }

  predicate HarmlessRun(s: Session, es: seq<Event>)
    requires s.Valid()
    decreases es
  {
    es == [] || (!Harmful(s, es[0]) && HarmlessRun(Step(s, es[0]), es[1..]))
  }

  lemma StepCrash(s: Session, e: Event)
    requires s.Valid() && !s.crashed && Waits(s)
    ensures Step(s, e).crashed <==> Harmful(s, e)
  {
    if Enabled(s, e) {
      match e
      case Readable(rs) => ReadEventCrash(s, rs);
      case Writable(res, onComplete, onClose) => WriteEventCrash(s, res, onComplete, onClose);
      case _ =>
    }
  }

  lemma {:induction false} CrashFrom(s: Session, es: seq<Event>)
    requires s.Valid() && !s.crashed && Waits(s)
    ensures Run(s, es).crashed <==> !HarmlessRun(s, es)
    decreases es
  {
    if es != [] {
      StepCrash(s, es[0]);
      StepWaits(s, es[0]);
      if Harmful(s, es[0]) {
        StaysCrashed(Step(s, es[0]), es[1..]);
      } else {
        CrashFrom(Step(s, es[0]), es[1..]);
      }
    }
  }

  /** A run of a session crashes exactly when one of its events is harmful where it happens, whatever its buffers
      held at bind. */
  lemma RunCrash(s: Session, etMode: bool, es: seq<Event>)
    requires s.Valid() && s.phase == Free && !s.crashed
    ensures Run(Bind(s, etMode), es).crashed <==> !HarmlessRun(Bind(s, etMode), es)
  {
    CrashFrom(Bind(s, etMode), es);
  }

  lemma {:induction false} StaysCrashed(s: Session, es: seq<Event>)
    requires s.Valid() && s.crashed
    ensures Run(s, es) == s
    decreases es
  {
    if es != [] { StaysCrashed(s, es[1..]); }
  }

  /** Neither closes nor meets a fatal send. */
  predicate Gentle(a: Script) {
    match a
    case Done => true
    case Consume(_, next) => Gentle(next)
    case Close(_, _) => false
    case Send(_, res, onComplete, _, next) => !res.Fatal? && Gentle(onComplete) && Gentle(next)
  }

  predicate GentleEvent(e: Event) {
    match e
    case Readable(rs) => forall r | r in rs && r.Got? :: Gentle(r.onMessage)
    case Writable(_, onComplete, _) => Gentle(onComplete)
    case _ => true
  }

  lemma {:induction false} GentleStaysOpen(a: Script, writing: bool)
    requires Gentle(a)
    ensures !FateOf(a, writing).closed
    decreases a
  {
    match a
    case Done =>
    case Consume(_, next) => GentleStaysOpen(next, writing);
    case Send(msg, res, onComplete, _, next) =>
      GentleStaysOpen(next, true);
      GentleStaysOpen(onComplete, false);
      GentleStaysOpen(next, FateOf(onComplete, false).writing);
  }

  lemma {:induction false} GentleReads(rs: seq<ReadResult>, etMode: bool, writing: bool)
    requires forall r | r in rs && r.Got? :: Gentle(r.onMessage)
    ensures !ReadFate(rs, etMode, writing)
  {
    if rs != [] && rs[0].Got? {
      GentleStaysOpen(rs[0].onMessage, writing);
      GentleReads(rs[1..], etMode, FateOf(rs[0].onMessage, writing).writing);
    }
  }

  lemma {:induction false} GentleRunsAreHarmless(s: Session, es: seq<Event>)
    requires s.Valid() && forall e | e in es :: GentleEvent(e)
    ensures HarmlessRun(s, es)
    decreases es
  {
    if es != [] {
      var e := es[0];
      assert e in es && GentleEvent(e);
      match e {
        case Readable(rs) => GentleReads(rs, s.etMode, s.writing);
        case Writable(_, onComplete, _) => GentleStaysOpen(onComplete, false);
        case _ =>
      }
      GentleRunsAreHarmless(Step(s, e), es[1..]);
    }
  }

  /** No session crashes whose message callbacks, and completion callbacks of write events, are gentle. */
  lemma GentleRunsDoNotCrash(s: Session, etMode: bool, es: seq<Event>)
    requires s.Valid() && s.phase == Free && !s.crashed && forall e | e in es :: GentleEvent(e)
    ensures !Run(Bind(s, etMode), es).crashed
  {
    RunCrash(s, etMode, es);
    GentleRunsAreHarmless(Bind(s, etMode), es);
  }

  // ---------------------------------------------------------------------------
  // The two crashes
  // ---------------------------------------------------------------------------

  /** Line 96: one byte arrives and the message callback closes the connection. */
  lemma CloseInMessageCallbackCrashes(etMode: bool)
    ensures Run(Bind(NEW_CONNECTION, etMode), [Register(Done), Readable([Got(7, [], Close(Done, Done))])]).crashed
  {
    RunTwo(Bind(NEW_CONNECTION, etMode), Register(Done), Readable([Got(7, [], Close(Done, Done))]));
  }

  /** Line 127: one byte waits, the socket takes it, and the completion callback closes the connection. */
  lemma CloseInCompletionCallbackCrashes(etMode: bool)
    ensures Run(Bind(NEW_CONNECTION, etMode),
                [Register(Done), Task(Send([7], Again, Done, Done, Done)),
                 Writable(Took(0), Close(Done, Done), Done)]).crashed
  {
    var a := Send([7], Again, Done, Done, Done);
    RefusedFirst(NEW_CONNECTION, etMode, [7]);
    var s2 := Step(Step(Bind(NEW_CONNECTION, etMode), Register(Done)), Task(a));
    WriteEventCrash(s2, Took(0), Close(Done, Done), Done);
    RunThree(Bind(NEW_CONNECTION, etMode), Register(Done), Task(a), Writable(Took(0), Close(Done, Done), Done));
  }
}
