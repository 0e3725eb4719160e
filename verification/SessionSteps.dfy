/** What each handler of a session does, answer by answer of the kernel (potato/net/TcpConnection.cpp). */
module SessionSteps {
  import opened Endian
  import opened ByteQueue
  import opened Session
  import opened SessionProofs

  /** What the two buffers of t hold. */
  predicate Buffers(t: Session, wbuf: seq<byte>, rbuf: seq<byte>) {
    t.Valid() && t.wbuf.Contents() == wbuf && t.rbuf.Contents() == rbuf
  }

  /** A session closes: Disconnected is noted, the object is returned, and nothing is sent any more. */
  predicate Closed(s: Session, t: Session) {
    && s.Valid() && t.Valid() && t.phase == Free && !t.writing && t.crashed == s.crashed && t.wbuf == s.wbuf
    && t.h == s.h.(trace := s.h.trace + [Disconnected], returned := s.h.returned + 1, consumed := t.h.consumed)
  }

  lemma CloseMeans(s: Session, onClose: Script)
    requires s.Valid() && s.phase == Open
    ensures Closed(s, CloseEvent(s, onClose))
  {
    ClosingIsQuiet(s.(phase := Closing).Note(Disconnected), onClose);
  }

  // ---------------------------------------------------------------------------
  // write
  // ---------------------------------------------------------------------------

  /** While EPOLLOUT is awaited the message joins the buffer. */
  lemma SendWhileWriting(s: Session, a: Script)
    requires s.Valid() && s.phase == Open && s.writing && a.Send?
    ensures var t := WriteFunctor(s, a);
            && t.phase == Open && t.writing && Buffers(t, s.wbuf.Contents() + a.msg, s.rbuf.Contents())
            && t.h == s.h.(ran := s.h.ran + a.msg)
  {}

  /** The socket takes k + 1 bytes of a longer message: just these are delivered and the rest joins the buffer. */
  lemma SendTakenInPart(s: Session, a: Script, k: nat)
    requires s.Valid() && s.phase == Open && !s.writing && a.Send? && a.res == Took(k) && k + 1 < |a.msg|
    ensures var t := WriteFunctor(s, a);
            && t.phase == Open && t.writing && Buffers(t, s.wbuf.Contents() + a.msg[k + 1..], s.rbuf.Contents())
            && t.h == s.h.(ran := s.h.ran + a.msg, delivered := s.h.delivered + a.msg[..k + 1])
  {}

  /** The socket would block: the whole message joins the buffer. */
  lemma SendRefused(s: Session, a: Script)
    requires s.Valid() && s.phase == Open && !s.writing && a.Send? && a.res == Again && a.msg != []
    ensures var t := WriteFunctor(s, a);
            && t.phase == Open && t.writing && Buffers(t, s.wbuf.Contents() + a.msg, s.rbuf.Contents())
            && t.h == s.h.(ran := s.h.ran + a.msg)
  {
    assert a.msg[0..] == a.msg && s.h.delivered + a.msg[..0] == s.h.delivered;
  }

  /** The socket takes all of it, or there is nothing to take: the completion callback runs. */
  lemma SendTakenWhole(s: Session, a: Script)
    requires s.Valid() && s.phase == Open && !s.writing && a.Send?
    requires (a.res.Took? && a.res.k + 1 >= |a.msg|) || (a.res == Again && a.msg == [])
    ensures var ran, delivered := s.h.ran + a.msg, s.h.delivered + a.msg;
            var h := s.h.(ran := ran, delivered := delivered, trace := s.h.trace + [WriteComplete(ran, delivered)]);
            WriteFunctor(s, a) == RunScript(s.(h := h), a.onComplete)
  {
    assert a.msg[..|a.msg|] == a.msg;
  }

  /** The write fails: the message is lost and the session closes. */
  lemma SendFails(s: Session, a: Script)
    requires s.Valid() && s.phase == Open && !s.writing && a.Send? && a.res == Fatal
    ensures Closed(s.(h := s.h.(ran := s.h.ran + a.msg, lost := a.msg)), WriteFunctor(s, a))
  {
    CloseMeans(s.Ran(a.msg).Lose(a.msg), a.onClose);
  }

  // ---------------------------------------------------------------------------
  // handleWriteEvent
  // ---------------------------------------------------------------------------

  /** The socket takes k + 1 bytes of more: just these leave the buffer, and EPOLLOUT is still awaited. */
  lemma WriteTakenInPart(s: Session, k: nat, onComplete: Script, onClose: Script)
    requires s.Valid() && s.phase == Open && s.writing && k + 1 < |s.wbuf.Contents()|
    ensures var t := WriteEvent(s, Took(k), onComplete, onClose);
            && t.phase == Open && t.writing && Buffers(t, s.wbuf.Contents()[k + 1..], s.rbuf.Contents())
            && t.h == s.h.(delivered := s.h.delivered + s.wbuf.Contents()[..k + 1])
            && t.crashed == s.crashed
  {}

  /** The socket takes all of them: the buffer is empty, EPOLLOUT is no longer awaited, and the callback runs. */
  lemma WriteTakenWhole(s: Session, k: nat, onComplete: Script, onClose: Script)
    requires s.Valid() && s.phase == Open && s.writing && 0 < |s.wbuf.Contents()| <= k + 1
    ensures var delivered := s.h.delivered + s.wbuf.Contents();
            var h := s.h.(delivered := delivered, trace := s.h.trace + [WriteComplete(s.h.ran, delivered)]);
            exists b: Buf :: b.Valid() && b.Contents() == []
              && WriteEvent(s, Took(k), onComplete, onClose)
                 == LastTest(RunScript(s.(wbuf := b, writing := false, h := h), onComplete))
  {
    var q := s.wbuf.Contents();
    assert q[..|q|] == q;
    var b := s.wbuf.Retrieve(|q|);
    assert b.Valid() && b.Contents() == [];
  }

  /** The socket would block: nothing changes. */
  lemma WriteRefused(s: Session, onComplete: Script, onClose: Script)
    requires s.Valid() && s.phase == Open && s.writing && s.wbuf.Contents() != []
    ensures WriteEvent(s, Again, onComplete, onClose) == s
  {}

  /** The write fails: the session closes. */
  lemma WriteFails(s: Session, onComplete: Script, onClose: Script)
    requires s.Valid() && s.phase == Open && s.writing && s.wbuf.Contents() != []
    ensures Closed(s, WriteEvent(s, Fatal, onComplete, onClose))
  {
    CloseMeans(s, onClose);
  }

  // ---------------------------------------------------------------------------
  // handleReadEvent
  // ---------------------------------------------------------------------------

  /** End of file and a read error close the session, whatever the mode, and end the loop. */
  lemma ReadEnds(s: Session, r: ReadResult, rest: seq<ReadResult>)
    requires s.Valid() && s.phase == Open && (r.Eof? || r.ReadFatal?)
    ensures Closed(s, ReadEvent(s, [r] + rest))
  {
    CloseMeans(s, r.onClose);
    assert ([r] + rest)[0] == r;
  }

  /** With nothing to read the loop ends and nothing changes. */
  lemma ReadRefused(s: Session, rest: seq<ReadResult>)
    requires s.Valid() && s.phase == Open
    ensures ReadEvent(s, [ReadAgain] + rest) == s
  {}

  /** A read brings the first bytes of what the kernel has, as many as there is room for, and then the message callback
      runs with them in the buffer. */
  lemma ReadBrings(s: Session, r: ReadResult) returns (t: Session, bytes: seq<byte>)
    requires s.Valid() && s.phase == Open && r.Got?
    ensures bytes <= [r.first] + r.rest
    ensures bytes == [r.first] + r.rest || |bytes| == s.rbuf.Writeable()
    ensures Buffers(t, s.wbuf.Contents(), s.rbuf.Contents() + bytes)
    ensures t == s.(rbuf := t.rbuf, h := s.h.(received := s.h.received + bytes, trace := s.h.trace + [Message]))
    ensures var u := RunScript(t, r.onMessage); ReadTurn(s, r) == if u.phase == Free then u.(crashed := true) else u
  {
    bytes := Cut([r.first] + r.rest, s.rbuf.Writeable());
    t := Received(s, bytes);
  }

  // ---------------------------------------------------------------------------
  // User code
  // ---------------------------------------------------------------------------

  /** retrieve(n) on the read buffer takes its first n bytes, or all of them, and then the code goes on. */
  lemma ConsumeTakes(s: Session, n: nat, next: Script) returns (t: Session, k: nat)
    requires s.Valid() && s.phase != Bound
    ensures k == n <= |s.rbuf.Contents()| || k == |s.rbuf.Contents()| <= n
    ensures Buffers(t, s.wbuf.Contents(), s.rbuf.Contents()[k..])
    ensures t == s.(rbuf := t.rbuf, h := s.h.(consumed := s.h.consumed + s.rbuf.Contents()[..k]))
    ensures RunScript(s, Consume(n, next)) == RunScript(t, next)
  {
    t := s.Eat(n);
    k := if n <= s.rbuf.Readable() then n else s.rbuf.Readable();
  }
}
