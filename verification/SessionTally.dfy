/** What the kernel's answers add up to over a run. The tally counts bytes and callbacks from the events alone; the
    session, with its two buffers, arrives at the same numbers. */
module SessionTally {
  import opened Endian
  import opened ByteQueue
  import opened Session
  import opened SessionProofs
  import opened SessionFates
  import opened SessionSteps

  /** waiting: bytes the socket has still to take. taken: the sum of the counts it gave. sent: the messages of the sends
      made while connected. The last three count what came in. */
  datatype Tally = Tally(phase: Phase, crashed: bool, writing: bool, waiting: nat, taken: nat, sent: seq<byte>,
                         completions: nat, messages: nat, received: seq<byte>, unread: nat, consumed: nat)

  function ByClose(onClose: Script, t: Tally): Tally
    decreases onClose, 2
  {
    if t.phase != Open then t
    else ByScript(onClose, t.(phase := Closing)).(phase := Free, writing := false)
  }

  /** The socket takes a whole message. */
  function WithWhole(t: Tally, msg: seq<byte>): Tally {
    t.(sent := t.sent + msg, taken := t.taken + |msg|, completions := t.completions + 1)
  }

  function BySend(a: Script, t: Tally): Tally
    requires a.Send?
    decreases a, 0
  {
    if t.phase != Open then t
    else
      var size := |a.msg|;
      var t1 := t.(sent := t.sent + a.msg);
      if t.writing then t1.(waiting := t.waiting + size)
      else if a.res.Fatal? then ByClose(a.onClose, t1)
      else if a.res.Took? && a.res.k + 1 < size then
        t1.(taken := t.taken + a.res.k + 1, waiting := t.waiting + size - a.res.k - 1, writing := true)
      else if a.res.Again? && size > 0 then t1.(waiting := t.waiting + size, writing := true)
      else ByScript(a.onComplete, WithWhole(t, a.msg))
  }

  function ByScript(a: Script, t: Tally): Tally
    decreases a, 1
  {
    match a
    case Done => t
    case Send(_, _, _, _, next) => ByScript(next, BySend(a, t))
    case Close(onClose, next) => ByScript(next, ByClose(onClose, t))
    case Consume(n, next) =>
      var k := if n <= t.unread then n else t.unread;
      ByScript(next, t.(unread := t.unread - k, consumed := t.consumed + k))
  }

  /** One read that brings bytes, before the message callback and with it. */
  function Brought(r: ReadResult, t: Tally): Tally
    requires r.Got?
  {
    t.(messages := t.messages + 1, received := t.received + ([r.first] + r.rest), unread := t.unread + 1 + |r.rest|)
  }

  function ByRead(r: ReadResult, t: Tally): Tally
    requires r.Got?
  {
    var t1 := ByScript(r.onMessage, Brought(r, t));
    if t1.phase == Free then t1.(crashed := true) else t1
  }

  function ByReads(rs: seq<ReadResult>, etMode: bool, t: Tally): Tally {
    if rs == [] || t.phase != Open then t
    else
      match rs[0]
      case ReadAgain => t
      case Eof(onClose) => ByClose(onClose, t)
      case ReadFatal(onClose) => ByClose(onClose, t)
      case Got(_, _, _) => if etMode then ByReads(rs[1..], etMode, ByRead(rs[0], t)) else ByRead(rs[0], t)
  }

  function ByWrite(res: WriteResult, onComplete: Script, onClose: Script, t: Tally): Tally {
    match res
    case Again => t
    case Fatal => ByClose(onClose, t)
    case Took(k) =>
      if k + 1 < t.waiting then t.(taken := t.taken + k + 1, waiting := t.waiting - k - 1)
      else
        var t1 := ByScript(onComplete, t.(taken := t.taken + t.waiting, waiting := 0, writing := false,
                                          completions := t.completions + 1));
        if t1.phase == Free && t1.waiting == 0 then t1.(crashed := true) else t1
  }

  function ByEvent(e: Event, etMode: bool, t: Tally): Tally {
    if t.crashed then t
    else
      match e
      case Register(onConnect) => if t.phase == Bound then ByScript(onConnect, t.(phase := Open)) else t
      case Task(script) => if t.phase in {Open, Free} then ByScript(script, t) else t
      case Readable(rs) => ByReads(rs, etMode, t)
      case Writable(res, onComplete, onClose) =>
        if t.phase == Open && t.writing then ByWrite(res, onComplete, onClose, t) else t
      case HangUp(onClose) => ByClose(onClose, t)
  }

  function ByEvents(es: seq<Event>, etMode: bool, t: Tally): Tally {
    if es == [] then t else ByEvents(es[1..], etMode, ByEvent(es[0], etMode, t))
  }

  /** At bind, with so many bytes left in the two buffers. */
  function AtBind(waiting: nat, unread: nat): Tally {
    Tally(Bound, false, false, waiting, 0, [], 0, 0, [], unread, 0)
  }

  // ---------------------------------------------------------------------------
  // Agreement
  // ---------------------------------------------------------------------------

  function Completions(cs: seq<Callback>): nat {
    if cs == [] then 0 else Completions(cs[..|cs| - 1]) + (if cs[|cs| - 1].WriteComplete? then 1 else 0)
  }

  function Messages(cs: seq<Callback>): nat {
    if cs == [] then 0 else Messages(cs[..|cs| - 1]) + (if cs[|cs| - 1].Message? then 1 else 0)
  }

  lemma Noted(cs: seq<Callback>, c: Callback)
    ensures Completions(cs + [c]) == Completions(cs) + (if c.WriteComplete? then 1 else 0)
    ensures Messages(cs + [c]) == Messages(cs) + (if c.Message? then 1 else 0)
  {
    assert (cs + [c])[..|cs|] == cs;
  }

  predicate AgreesOutward(s: Session, t: Tally) {
    && s.Valid() && t.phase == s.phase && t.crashed == s.crashed && t.writing == s.writing
    && t.waiting == |s.wbuf.Contents()| && t.taken == |s.h.delivered| && t.sent == s.h.ran
    && t.completions == Completions(s.h.trace) && t.messages == Messages(s.h.trace)
  }

  predicate AgreesInward(s: Session, t: Tally) {
    s.Valid() && t.received == s.h.received && t.unread == |s.rbuf.Contents()| && t.consumed == |s.h.consumed|
  }

  /** small: no read brings more than 4096 bytes, the room there always is. Only then is all that the kernel brings
      sure to be read at once. */
  predicate Agrees(s: Session, t: Tally, small: bool) {
    AgreesOutward(s, t) && (small ==> AgreesInward(s, t))
  }

  lemma {:induction false} ScriptAgrees(s: Session, a: Script, t: Tally, small: bool)
    requires s.Valid() && s.phase != Bound && Agrees(s, t, small)
    ensures Agrees(RunScript(s, a), ByScript(a, t), small)
    decreases a, 1
  {
    match a
    case Done =>
    case Send(_, _, _, _, next) =>
      SendAgrees(s, a, t, small);
      ScriptAgrees(WriteFunctor(s, a), next, BySend(a, t), small);
    case Close(onClose, next) =>
      CloseAgrees(s, onClose, t, small);
      ScriptAgrees(CloseEvent(s, onClose), next, ByClose(onClose, t), small);
    case Consume(n, next) =>
      var k := if n <= t.unread then n else t.unread;
      ScriptAgrees(s.Eat(n), next, t.(unread := t.unread - k, consumed := t.consumed + k), small);
  }

  lemma {:induction false} CloseAgrees(s: Session, onClose: Script, t: Tally, small: bool)
    requires s.Valid() && s.phase != Bound && Agrees(s, t, small)
    ensures Agrees(CloseEvent(s, onClose), ByClose(onClose, t), small)
    decreases onClose, 2
  {
    if s.phase == Open {
      Noted(s.h.trace, Disconnected);
      ScriptAgrees(s.(phase := Closing).Note(Disconnected), onClose, t.(phase := Closing), small);
    }
  }

  lemma {:induction false} SendAgrees(s: Session, a: Script, t: Tally, small: bool)
    requires s.Valid() && s.phase != Bound && a.Send? && Agrees(s, t, small)
    ensures Agrees(WriteFunctor(s, a), BySend(a, t), small)
    decreases a, 0
  {
    if s.phase == Open {
      if s.writing || JoinsBuffer(a.res, |a.msg|) {
        BufferedSendAgrees(s, a, t, small);
      } else if a.res.Fatal? {
        CloseAgrees(s.Ran(a.msg).Lose(a.msg), a.onClose, t.(sent := t.sent + a.msg), small);
      } else {
        SendTakenWhole(s, a);
        CompletionAgrees(s, a.msg, t, small);
        ScriptAgrees(Delivered(s, a.msg), a.onComplete, WithWhole(t, a.msg), small);
      }
    }
  }

  /** A direct write after which some of the message joins the buffer. */
  predicate JoinsBuffer(res: WriteResult, size: nat) {
    (res.Took? && res.k + 1 < size) || (res.Again? && size > 0)
  }

  lemma BufferedSendAgrees(s: Session, a: Script, t: Tally, small: bool)
    requires s.Valid() && s.phase == Open && a.Send? && Agrees(s, t, small)
    requires s.writing || JoinsBuffer(a.res, |a.msg|)
    ensures Agrees(WriteFunctor(s, a), BySend(a, t), small)
  {
    if s.writing {
      SendWhileWriting(s, a);
    } else if a.res.Took? {
      SendTakenInPart(s, a, a.res.k);
    } else {
      SendRefused(s, a);
    }
  }

  /** The socket takes a whole message, and the completion callback is noted. */
  function Delivered(s: Session, msg: seq<byte>): Session {
    var ran, delivered := s.h.ran + msg, s.h.delivered + msg;
    s.(h := s.h.(ran := ran, delivered := delivered, trace := s.h.trace + [WriteComplete(ran, delivered)]))
  }

  lemma CompletionAgrees(s: Session, msg: seq<byte>, t: Tally, small: bool)
    requires Agrees(s, t, small)
    ensures Agrees(Delivered(s, msg), WithWhole(t, msg), small)
  {
    Noted(s.h.trace, WriteComplete(s.h.ran + msg, s.h.delivered + msg));
  }

  // ---------------------------------------------------------------------------
  // Events
  // ---------------------------------------------------------------------------

  predicate SmallRead(r: ReadResult) {
    r.Got? ==> 1 + |r.rest| <= READ_ROOM
  }

  predicate SmallReads(e: Event) {
    e.Readable? ==> forall r | r in e.rs :: SmallRead(r)
  }

  lemma ReceivedAgrees(s: Session, r: ReadResult, t: Tally, small: bool)
    requires s.Valid() && r.Got? && Agrees(s, t, small) && (small ==> SmallRead(r))
    ensures Agrees(Received(s, Cut([r.first] + r.rest, s.rbuf.Writeable())), Brought(r, t), small)
  {
    Noted(s.h.trace, Message);
  }

  lemma ReadAgrees(s: Session, r: ReadResult, t: Tally, small: bool)
    requires s.Valid() && s.phase == Open && r.Got? && Agrees(s, t, small) && (small ==> SmallRead(r))
    ensures Agrees(ReadTurn(s, r), ByRead(r, t), small)
  {
    ReceivedAgrees(s, r, t, small);
    ScriptAgrees(Received(s, Cut([r.first] + r.rest, s.rbuf.Writeable())), r.onMessage, Brought(r, t), small);
  }

  lemma {:induction false} ReadsAgree(s: Session, rs: seq<ReadResult>, t: Tally, small: bool)
    requires s.Valid() && s.phase == Open && Agrees(s, t, small) && (small ==> forall r | r in rs :: SmallRead(r))
    ensures Agrees(ReadEvent(s, rs), ByReads(rs, s.etMode, t), small)
    decreases |rs|
  {
    if rs != [] {
      match rs[0] {
        case ReadAgain =>
        case Eof(onClose) => CloseAgrees(s, onClose, t, small);
        case ReadFatal(onClose) => CloseAgrees(s, onClose, t, small);
        case Got(_, _, _) =>
          ReadAgrees(s, rs[0], t, small);
          var s1 := ReadTurn(s, rs[0]);
          if s1.phase == Open && s.etMode { ReadsAgree(s1, rs[1..], ByRead(rs[0], t), small); }
      }
    }
  }

  lemma DrainAgrees(s: Session, onComplete: Script, t: Tally, small: bool)
    requires s.Valid() && s.phase == Open && s.writing && Agrees(s, t, small)
    ensures Agrees(Flushed(s, s.wbuf.Readable(), onComplete),
                   ByScript(onComplete, t.(taken := t.taken + t.waiting, waiting := 0, writing := false,
                                           completions := t.completions + 1)), small)
  {
    var s2 := s.Flush(s.wbuf.Readable()).(writing := false);
    Noted(s2.h.trace, WriteComplete(s2.h.ran, s2.h.delivered));
    ScriptAgrees(s2.Completed(), onComplete, t.(taken := t.taken + t.waiting, waiting := 0, writing := false,
                                                completions := t.completions + 1), small);
  }

  lemma FailedWriteAgrees(s: Session, onComplete: Script, onClose: Script, t: Tally, small: bool)
    requires s.Valid() && s.phase == Open && s.writing && s.wbuf.Contents() != [] && Agrees(s, t, small)
    ensures Agrees(WriteEvent(s, Fatal, onComplete, onClose), ByClose(onClose, t), small)
  {
    CloseAgrees(s, onClose, t, small);
    CloseMeans(s, onClose);
    assert WriteOnce(s, Fatal, onComplete, onClose) == CloseEvent(s, onClose);
  }

  lemma ShortWriteAgrees(s: Session, k: nat, onComplete: Script, onClose: Script, t: Tally, small: bool)
    requires s.Valid() && s.phase == Open && s.writing && k + 1 < |s.wbuf.Contents()| && Agrees(s, t, small)
    ensures Agrees(WriteEvent(s, Took(k), onComplete, onClose), ByWrite(Took(k), onComplete, onClose, t), small)
  {
    WriteTakenInPart(s, k, onComplete, onClose);
  }

  lemma WholeWriteAgrees(s: Session, k: nat, onComplete: Script, onClose: Script, t: Tally, small: bool)
    requires s.Valid() && s.phase == Open && s.writing && 0 < |s.wbuf.Contents()| <= k + 1 && Agrees(s, t, small)
    ensures Agrees(WriteEvent(s, Took(k), onComplete, onClose), ByWrite(Took(k), onComplete, onClose, t), small)
  {
    DrainAgrees(s, onComplete, t, small);
    FlushedWaits(s, s.wbuf.Readable(), onComplete);
    assert WriteOnce(s, Took(k), onComplete, onClose) == Flushed(s, s.wbuf.Readable(), onComplete);
  }

  lemma WriteAgrees(s: Session, res: WriteResult, onComplete: Script, onClose: Script, t: Tally, small: bool)
    requires s.Valid() && s.phase == Open && s.writing && s.wbuf.Contents() != [] && Agrees(s, t, small)
    ensures Agrees(WriteEvent(s, res, onComplete, onClose), ByWrite(res, onComplete, onClose, t), small)
  {
    match res
    case Again => WriteRefused(s, onComplete, onClose);
    case Fatal => FailedWriteAgrees(s, onComplete, onClose, t, small);
    case Took(k) =>
      if k + 1 < t.waiting {
        ShortWriteAgrees(s, k, onComplete, onClose, t, small);
      } else {
        WholeWriteAgrees(s, k, onComplete, onClose, t, small);
      }
  }

  lemma EventAgrees(s: Session, e: Event, t: Tally, small: bool)
    requires s.Valid() && Waits(s) && Agrees(s, t, small) && (small ==> SmallReads(e))
    ensures Agrees(Step(s, e), ByEvent(e, s.etMode, t), small) && Step(s, e).etMode == s.etMode
  {
    if Enabled(s, e) {
      match e
      case Register(onConnect) =>
        Noted(s.h.trace, Connected);
        ScriptAgrees(s.(phase := Open).Note(Connected), onConnect, t.(phase := Open), small);
      case Task(script) => ScriptAgrees(s, script, t, small);
      case Readable(rs) => ReadsAgree(s, rs, t, small);
      case Writable(res, onComplete, onClose) => WriteAgrees(s, res, onComplete, onClose, t, small);
      case HangUp(onClose) => CloseAgrees(s, onClose, t, small);
    }
  }

  lemma {:induction false} EventsAgree(s: Session, es: seq<Event>, t: Tally, small: bool)
    requires s.Valid() && Waits(s) && Agrees(s, t, small) && (small ==> forall e | e in es :: SmallReads(e))
    ensures Agrees(Run(s, es), ByEvents(es, s.etMode, t), small)
    decreases es
  {
    if es != [] {
      assert es[0] in es;
      EventAgrees(s, es[0], t, small);
      StepWaits(s, es[0]);
      EventsAgree(Step(s, es[0]), es[1..], ByEvent(es[0], s.etMode, t), small);
    }
  }

  /** In every run of every session: how it stands, how many bytes the socket has taken and how many wait, what was
      sent, and how often each callback ran, are what the kernel's answers add up to. */
  lemma RunIsTallied(s: Session, etMode: bool, es: seq<Event>)
    requires s.Valid() && s.phase == Free && !s.crashed
    ensures AgreesOutward(Run(Bind(s, etMode), es),
                          ByEvents(es, etMode, AtBind(|s.wbuf.Contents()|, |s.rbuf.Contents()|)))
  {
    EventsAgree(Bind(s, etMode), es, AtBind(|s.wbuf.Contents()|, |s.rbuf.Contents()|), false);
  }

  /** So from an empty write buffer the socket has taken exactly the first so many bytes of what was sent, and the next
      so many wait. */
  lemma DeliveredIsCounted(s: Session, etMode: bool, es: seq<Event>)
    requires s.Valid() && s.phase == Free && !s.crashed && s.wbuf.Contents() == []
    ensures var f := Run(Bind(s, etMode), es);
            var t := ByEvents(es, etMode, AtBind(0, |s.rbuf.Contents()|));
            && t.taken + t.waiting <= |t.sent|
            && f.h.delivered == t.sent[..t.taken] && f.wbuf.Contents() == t.sent[t.taken..t.taken + t.waiting]
  {
    RunIsTallied(s, etMode, es);
    OutgoingStream(s, etMode, es);
    var f := Run(Bind(s, etMode), es);
    assert f.h.ran == f.h.delivered + (f.wbuf.Contents() + f.h.lost);
  }

  /** And if no read brings more than 4096 bytes, what was received is exactly what the kernel brought, in order, and
      user code has consumed as much of it as it asked for. */
  lemma ReadsAreTallied(s: Session, etMode: bool, es: seq<Event>)
    requires s.Valid() && s.phase == Free && !s.crashed && forall e | e in es :: SmallReads(e)
    ensures AgreesInward(Run(Bind(s, etMode), es),
                         ByEvents(es, etMode, AtBind(|s.wbuf.Contents()|, |s.rbuf.Contents()|)))
  {
    EventsAgree(Bind(s, etMode), es, AtBind(|s.wbuf.Contents()|, |s.rbuf.Contents()|), true);
  }
}
