/** A session whose sends all come from one thread other than its loop: the task queue and the session together.
    Any thread may post anything else, a close of this session included. */
module EndToEnd {
  import opened Endian
  import opened Session
  import opened SessionProofs
  import Q = TaskQueue

  /** A queued functor: a send on this session, or anything else, with what it does to this session. */
  datatype Job = SendJob(msg: seq<byte>) | OtherJob(script: Script)

  datatype World = World(q: Q.State<Job>, s: Session)

  datatype Action =
    | Queue(a: Q.Action<Job>)
    | RunTask(res: WriteResult, onComplete: Script, onClose: Script)
    | Io(e: Event)

  /** User callbacks do not send: only the one thread does. */
  predicate SendFree(a: Script) {
    match a
    case Done => true
    case Send(_, _, _, _, _) => false
    case Close(onClose, next) => SendFree(onClose) && SendFree(next)
    case Consume(_, next) => SendFree(next)
  }

  predicate SendFreeRead(r: ReadResult) {
    match r
    case Got(_, _, onMessage) => SendFree(onMessage)
    case Eof(onClose) => SendFree(onClose)
    case ReadFatal(onClose) => SendFree(onClose)
    case ReadAgain => true
  }

  /** Registering happens once, before the world begins. */
  predicate SendFreeEvent(e: Event) {
    match e
    case Register(_) => false
    case Task(script) => SendFree(script)
    case Readable(rs) => forall r | r in rs :: SendFreeRead(r)
    case Writable(_, onComplete, onClose) => SendFree(onComplete) && SendFree(onClose)
    case HangUp(onClose) => SendFree(onClose)
  }

  /** A functor that thread who may post. */
  predicate Proper(job: Job, who: nat, user: nat) {
    match job
    case SendJob(_) => who == user
    case OtherJob(script) => SendFree(script)
  }

  /** RunTask takes the next functor of the batch. What the loop thread does inline is part of its scripts. */
  predicate Allowed(w: World, user: nat, a: Action) {
    match a
    case Queue(b) => Q.Enabled(w.q, b) && !b.RunOne? && !b.RunInline? && (b.Call? ==> Proper(b.task, b.id, user))
    case RunTask(_, onComplete, onClose) =>
      Q.Enabled(w.q, Q.RunOne) && SendFree(onComplete) && SendFree(onClose)
    case Io(e) => w.q.pc.Polling? && !e.Task? && SendFreeEvent(e)
  }

  function Advance(w: World, user: nat, a: Action): (w': World)
    requires w.s.Valid() && Allowed(w, user, a)
    ensures w'.s.Valid()
  {
    match a
    case Queue(b) => w.(q := Q.Apply(w.q, b))
    case Io(e) => w.(s := Step(w.s, e))
    case RunTask(res, onComplete, onClose) =>
      World(Q.Apply(w.q, Q.RunOne), Step(w.s, Task(ScriptOf(w.q.pc.batch[0].task, res, onComplete, onClose))))
  }

  /** What a functor does when it runs, with the kernel's answer to a send and the callbacks this invokes. */
  function ScriptOf(job: Job, res: WriteResult, onComplete: Script, onClose: Script): Script {
    match job
    case SendJob(msg) => Send(msg, res, onComplete, onClose, Done)
    case OtherJob(script) => script
  }

  predicate LegalRun(w: World, user: nat, run: seq<Action>)
    requires w.s.Valid()
    decreases run
  {
    run == [] || (Allowed(w, user, run[0]) && LegalRun(Advance(w, user, run[0]), user, run[1..]))
  }

  function RunAll(w: World, user: nat, run: seq<Action>): (w': World)
    requires w.s.Valid() && LegalRun(w, user, run)
    decreases run
  {
    if run == [] then w else RunAll(Advance(w, user, run[0]), user, run[1..])
  }

  // ---------------------------------------------------------------------------
  // The two parts of a run
  // ---------------------------------------------------------------------------

  /** What the queue does in one step, and in a run. */
  function OfQueue(a: Action): seq<Q.Action<Job>> {
    match a
    case Queue(b) => [b]
    case RunTask(_, _, _) => [Q.RunOne]
    case Io(_) => []
  }

  function QueueRun(run: seq<Action>): seq<Q.Action<Job>> {
    if run == [] then [] else OfQueue(run[0]) + QueueRun(run[1..])
  }

  /** What the session meets in one step, and in a run: the functors that were posted, when they run, and the events. */
  function OfSession(w: World, user: nat, a: Action): seq<Event>
    requires Allowed(w, user, a)
  {
    match a
    case Queue(_) => []
    case RunTask(res, onComplete, onClose) => [Task(ScriptOf(w.q.pc.batch[0].task, res, onComplete, onClose))]
    case Io(e) => [e]
  }

  function SessionRun(w: World, user: nat, run: seq<Action>): seq<Event>
    requires w.s.Valid() && LegalRun(w, user, run)
    decreases run
  {
    if run == [] then []
    else OfSession(w, user, run[0]) + SessionRun(Advance(w, user, run[0]), user, run[1..])
  }

  lemma QueueOfStep(w: World, user: nat, a: Action)
    requires w.s.Valid() && Allowed(w, user, a)
    ensures Q.LegalRun(w.q, OfQueue(a)) && Q.RunAll(w.q, OfQueue(a)) == Advance(w, user, a).q
  {
    if !a.Io? {
      var b := OfQueue(a)[0];
      assert [b][1..] == [] && Q.LegalRun(Q.Apply(w.q, b), []);
    }
  }

  lemma SessionOfStep(w: World, user: nat, a: Action)
    requires w.s.Valid() && Allowed(w, user, a)
    ensures Run(w.s, OfSession(w, user, a)) == Advance(w, user, a).s
  {
    if !a.Queue? {
      var e := OfSession(w, user, a)[0];
      assert [e][1..] == [] && Run(Step(w.s, e), []) == Step(w.s, e);
    }
  }

  /** A run of both together is a run of the queue and a run of the session, so what is proved of each holds here. */
  lemma {:induction false} RunsTogether(w: World, user: nat, run: seq<Action>)
    requires w.s.Valid() && LegalRun(w, user, run)
    ensures var w' := RunAll(w, user, run);
            && Q.LegalRun(w.q, QueueRun(run)) && w'.q == Q.RunAll(w.q, QueueRun(run))
            && w'.s == Run(w.s, SessionRun(w, user, run))
    decreases run
  {
    if run != [] {
      var w1 := Advance(w, user, run[0]);
      RunsTogether(w1, user, run[1..]);
      QueueOfStep(w, user, run[0]);
      SessionOfStep(w, user, run[0]);
      Q.RunAppend(w.q, OfQueue(run[0]), QueueRun(run[1..]));
      RunAppend(w.s, OfSession(w, user, run[0]), SessionRun(w1, user, run[1..]));
    }
  }

  // ---------------------------------------------------------------------------
  // Only the send functor lets a session send
  // ---------------------------------------------------------------------------

  lemma {:induction false} SendFreeScript(s: Session, a: Script)
    requires s.Valid() && s.phase != Bound && SendFree(a)
    ensures RunScript(s, a).h.ran == s.h.ran
    decreases a, 1
  {
    match a
    case Done =>
    case Close(onClose, next) =>
      SendFreeClose(s, onClose);
      SendFreeScript(CloseEvent(s, onClose), next);
    case Consume(n, next) => SendFreeScript(s.Eat(n), next);
  }

  lemma {:induction false} SendFreeClose(s: Session, onClose: Script)
    requires s.Valid() && s.phase != Bound && SendFree(onClose)
    ensures CloseEvent(s, onClose).h.ran == s.h.ran
    decreases onClose, 2
  {
    if s.phase == Open {
      SendFreeScript(s.(phase := Closing).Note(Disconnected), onClose);
    }
  }

  lemma SendFreeTurn(s: Session, r: ReadResult)
    requires s.Valid() && s.phase == Open && SendFreeRead(r)
    ensures ReadTurn(s, r).h.ran == s.h.ran
  {
    match r
    case ReadAgain =>
    case Eof(onClose) => SendFreeClose(s, onClose);
    case ReadFatal(onClose) => SendFreeClose(s, onClose);
    case Got(first, rest, onMessage) =>
      SendFreeScript(Received(s, Cut([first] + rest, s.rbuf.Writeable())), onMessage);
  }

  lemma {:induction false} SendFreeReads(s: Session, rs: seq<ReadResult>)
    requires s.Valid() && s.phase == Open && forall r | r in rs :: SendFreeRead(r)
    ensures ReadEvent(s, rs).h.ran == s.h.ran
    decreases |rs|
  {
    if rs != [] {
      SendFreeTurn(s, rs[0]);
      var s1 := ReadTurn(s, rs[0]);
      if s1.phase == Open { SendFreeReads(s1, rs[1..]); }
    }
  }

  lemma SendFreeFlush(s: Session, n: nat, onComplete: Script)
    requires s.Valid() && s.phase == Open && n <= s.wbuf.Readable() && SendFree(onComplete)
    ensures Flushed(s, n, onComplete).h.ran == s.h.ran
  {
    SendFreeScript(s.Flush(n).(writing := false).Completed(), onComplete);
  }

  lemma SendFreeOnce(s: Session, res: WriteResult, onComplete: Script, onClose: Script)
    requires s.Valid() && s.phase == Open && s.writing && SendFree(onComplete) && SendFree(onClose)
    ensures WriteOnce(s, res, onComplete, onClose).h.ran == s.h.ran
  {
    SendFreeClose(s, onClose);
    SendFreeFlush(s, Taken(res, s.wbuf.Readable()), onComplete);
  }

  lemma SendFreeStep(s: Session, e: Event)
    requires s.Valid() && SendFreeEvent(e)
    ensures Step(s, e).h.ran == s.h.ran
    ensures s.phase in {Open, Free} ==> Step(s, e).phase in {Open, Free}
    ensures s.phase == Free ==> Step(s, e).phase == Free
  {
    if Enabled(s, e) {
      match e
      case Task(script) => SendFreeScript(s, script);
      case Readable(rs) => SendFreeReads(s, rs);
      case HangUp(onClose) => SendFreeClose(s, onClose);
      case Writable(res, onComplete, onClose) => SendFreeOnce(s, res, onComplete, onClose);
    }
  }

  /** A send functor adds its message to what ran, if the session is open. */
  lemma SendStep(s: Session, msg: seq<byte>, res: WriteResult, onComplete: Script, onClose: Script)
    requires s.Valid() && !s.crashed && s.phase in {Open, Free} && SendFree(onComplete) && SendFree(onClose)
    ensures var s' := Step(s, Task(Send(msg, res, onComplete, onClose, Done)));
            && s'.h.ran == (if s.phase == Open then s.h.ran + msg else s.h.ran)
            && s'.phase in {Open, Free}
            && (s.phase == Free ==> s' == s)
  {
    var a := Send(msg, res, onComplete, onClose, Done);
    assert RunScript(s, a) == RunScript(WriteFunctor(s, a), Done);
    if s.phase == Open {
      var s1 := s.Ran(msg);
      SendFreeClose(s1.Lose(msg), onClose);
      var s2 := s1.Deliver(msg[..Taken(res, |msg|)]);
      SendFreeScript(s2.Completed(), onComplete);
      assert WriteFunctor(s, a).h.ran == s.h.ran + msg;
    }
  }

  // ---------------------------------------------------------------------------
  // Bytes of jobs
  // ---------------------------------------------------------------------------

  function Bytes(js: seq<Job>): seq<byte> {
    if js == [] then []
    else (if js[0].SendJob? then js[0].msg else []) + Bytes(js[1..])
  }

  function Jobs(ps: seq<Q.Posted<Job>>): (js: seq<Job>)
    ensures |js| == |ps|
  {
    if ps == [] then [] else [ps[0].task] + Jobs(ps[1..])
  }

  lemma {:induction false} BytesAppend(js: seq<Job>, ks: seq<Job>)
    ensures Bytes(js + ks) == Bytes(js) + Bytes(ks)
  {
    if js == [] {
      assert js + ks == ks;
    } else {
      assert (js + ks)[1..] == js[1..] + ks;
      BytesAppend(js[1..], ks);
    }
  }

  lemma {:induction false} JobsAppend(ps: seq<Q.Posted<Job>>, qs: seq<Q.Posted<Job>>)
    ensures Jobs(ps + qs) == Jobs(ps) + Jobs(qs)
  {
    if ps == [] {
      assert ps + qs == qs;
    } else {
      assert (ps + qs)[1..] == ps[1..] + qs;
      JobsAppend(ps[1..], qs);
    }
  }

  predicate AllProper(ps: seq<Q.Posted<Job>>, user: nat) {
    forall p | p in ps :: Proper(p.task, p.who, user)
  }

  lemma {:induction false} UserBytes(ps: seq<Q.Posted<Job>>, user: nat)
    requires AllProper(ps, user)
    ensures Bytes(Jobs(ps)) == Bytes(Q.Of(ps, user))
  {
    if ps != [] {
      UserBytes(ps[1..], user);
      assert Jobs(ps)[1..] == Jobs(ps[1..]);
      if ps[0].who == user {
        assert Q.Of(ps, user)[1..] == Q.Of(ps[1..], user);
      } else {
        assert ps[0] in ps;
        assert Q.Of(ps, user) == Q.Of(ps[1..], user);
      }
    }
  }

  // ---------------------------------------------------------------------------
  // End-to-end order
  // ---------------------------------------------------------------------------

  /** What ran is what the executed tasks sent; after the session ended, or crashed, a prefix of it. */
  ghost predicate Inv(w: World, user: nat, stale: seq<byte>) {
    && Q.Inv(w.q) && Good(w.s, DRAINED, stale) && w.s.phase in {Open, Free}
    && AllProper(w.q.called, user) && AllProper(w.q.posted, user)
    && (forall id | id in w.q.posters && !w.q.posters[id].Pushed? :: Proper(w.q.posters[id].task, id, user))
    && w.s.h.ran <= Bytes(Jobs(w.q.executed))
    && (w.s.phase == Open && !w.s.crashed ==> w.s.h.ran == Bytes(Jobs(w.q.executed)))
  }

  lemma RunTaskKeeps(w: World, user: nat, a: Action, stale: seq<byte>)
    requires Inv(w, user, stale) && a.RunTask? && Allowed(w, user, a)
    ensures Inv(Advance(w, user, a), user, stale)
  {
    var w' := Advance(w, user, a);
    Q.StepKeeps(w.q, Q.RunOne);
    var p := w.q.pc.batch[0];
    JobsAppend(w.q.executed, [p]);
    assert [p][1..] == [] && Jobs([p]) == [p.task];
    BytesAppend(Jobs(w.q.executed), [p.task]);
    assert Bytes([p.task]) == if p.task.SendJob? then p.task.msg else [] by {
      assert [p.task][1..] == [];
    }
    assert p in w.q.posted;
    var e := Task(ScriptOf(p.task, a.res, a.onComplete, a.onClose));
    var way := StepKeeps(w.s, e, DRAINED, stale);
    if p.task.OtherJob? {
      SendFreeStep(w.s, e);
    } else if !w.s.crashed {
      SendStep(w.s, p.task.msg, a.res, a.onComplete, a.onClose);
    }
  }

  lemma QueueKeeps(w: World, user: nat, b: Q.Action<Job>, stale: seq<byte>)
    requires Inv(w, user, stale) && Allowed(w, user, Queue(b))
    ensures Inv(Advance(w, user, Queue(b)), user, stale)
  {
    Q.StepKeeps(w.q, b);
  }

  lemma StepKeepsWorld(w: World, user: nat, a: Action, stale: seq<byte>)
    requires Inv(w, user, stale) && Allowed(w, user, a)
    ensures Inv(Advance(w, user, a), user, stale)
  {
    match a
    case Queue(b) => QueueKeeps(w, user, b, stale);
    case RunTask(_, _, _) => RunTaskKeeps(w, user, a, stale);
    case Io(e) =>
      SendFreeStep(w.s, e);
      var way := StepKeeps(w.s, e, DRAINED, stale);
  }

  lemma {:induction false} RunKeepsWorld(w: World, user: nat, run: seq<Action>, stale: seq<byte>)
    requires Inv(w, user, stale) && LegalRun(w, user, run)
    ensures Inv(RunAll(w, user, run), user, stale)
    decreases run
  {
    if run != [] {
      StepKeepsWorld(w, user, run[0], stale);
      RunKeepsWorld(Advance(w, user, run[0]), user, run[1..], stale);
    }
  }

  /** A session that has just registered, on a loop whose queue and threads are anywhere. */
  function Opened(q: Q.State<Job>, s: Session, etMode: bool, onConnect: Script): (w: World)
    requires s.Valid() && s.phase == Free
    ensures w.s.Valid()
  {
    World(q, Step(Bind(s, etMode), Register(onConnect)))
  }

  predicate NoSends(ps: seq<Q.Posted<Job>>) {
    forall p | p in ps :: p.task.OtherJob? && SendFree(p.task.script)
  }

  /** Nothing on its way through the queue sends on this session. */
  ghost predicate Unused(q: Q.State<Job>) {
    && Q.Inv(q) && NoSends(q.called) && NoSends(q.posted)
    && forall id | id in q.posters && !q.posters[id].Pushed? ::
         q.posters[id].task.OtherJob? && SendFree(q.posters[id].task.script)
  }

  lemma {:induction false} NoBytes(ps: seq<Q.Posted<Job>>)
    requires NoSends(ps)
    ensures Bytes(Jobs(ps)) == []
  {
    if ps != [] {
      NoBytes(ps[1..]);
      assert ps[0] in ps && Jobs(ps)[1..] == Jobs(ps[1..]);
    }
  }

  lemma SendFreeRegister(b: Session, onConnect: Script)
    requires b.Valid() && b.phase == Bound && !b.crashed && SendFree(onConnect)
    ensures var s := Step(b, Register(onConnect)); s.h.ran == b.h.ran && s.phase in {Open, Free}
  {
    SendFreeScript(b.(phase := Open).Note(Connected), onConnect);
  }

  lemma OpenedIsGood(q: Q.State<Job>, s: Session, etMode: bool, onConnect: Script, user: nat)
    requires Unused(q)
    requires s.Valid() && s.phase == Free && !s.crashed && s.wbuf.Contents() == [] && SendFree(onConnect)
    ensures Inv(Opened(q, s, etMode, onConnect), user, s.rbuf.Contents())
  {
    var b := Bind(s, etMode);
    BindIsGood(s, etMode);
    var way := StepKeeps(b, Register(onConnect), DRAINED, s.rbuf.Contents());
    SendFreeRegister(b, onConnect);
    assert NoSends(q.executed);
    NoBytes(q.executed);
  }

  /** What a thread sent is what was executed, what waits in the batch and the queue, and what it still carries. */
  lemma QueuedBytes(w: World, user: nat)
    requires Q.Inv(w.q) && AllProper(w.q.posted, user)
    ensures Bytes(Jobs(w.q.executed)) + Bytes(Jobs(Q.Batch(w.q.pc) + w.q.pending)) + Bytes(Q.Carried(w.q, user))
            == Bytes(Q.Of(w.q.called, user))
  {
    var rest := Q.Batch(w.q.pc) + w.q.pending;
    assert w.q.posted == w.q.executed + rest;
    JobsAppend(w.q.executed, rest);
    BytesAppend(Jobs(w.q.executed), Jobs(rest));
    UserBytes(w.q.posted, user);
    BytesAppend(Q.Of(w.q.posted, user), Q.Carried(w.q, user));
  }

  /** Delivered, then buffered, then queued, then carried bytes are what the thread sent. */
  ghost predicate Accounted(w: World, user: nat) {
    && w.s.wbuf.Valid()
    && w.s.h.delivered + w.s.wbuf.Contents()
         + Bytes(Jobs(Q.Batch(w.q.pc) + w.q.pending)) + Bytes(Q.Carried(w.q, user))
       == Bytes(Q.Of(w.q.called, user))
  }

  lemma InvOrders(w: World, user: nat, stale: seq<byte>)
    requires Inv(w, user, stale)
    ensures w.s.h.delivered <= Bytes(Q.Of(w.q.called, user))
  {
    QueuedBytes(w, user);
    PrefixOfSum(w.s.h.delivered, w.s.h.ran, Bytes(Jobs(w.q.executed)),
                Bytes(Jobs(Q.Batch(w.q.pc) + w.q.pending)), Bytes(Q.Carried(w.q, user)));
  }

  lemma PrefixOfSum(d: seq<byte>, r: seq<byte>, e: seq<byte>, x: seq<byte>, y: seq<byte>)
    requires d <= r <= e
    ensures d <= e + x + y
  {}

  lemma InvAccounts(w: World, user: nat, stale: seq<byte>)
    requires Inv(w, user, stale) && w.s.phase == Open && !w.s.crashed
    ensures Accounted(w, user)
  {
    QueuedBytes(w, user);
    assert w.s.h.lost == [];
  }

  lemma RunIsGood(q: Q.State<Job>, s: Session, etMode: bool, onConnect: Script, user: nat, run: seq<Action>)
    requires Unused(q)
    requires s.Valid() && s.phase == Free && !s.crashed && s.wbuf.Contents() == [] && SendFree(onConnect)
    requires LegalRun(Opened(q, s, etMode, onConnect), user, run)
    ensures Inv(RunAll(Opened(q, s, etMode, onConnect), user, run), user, s.rbuf.Contents())
  {
    OpenedIsGood(q, s, etMode, onConnect, user);
    RunKeepsWorld(Opened(q, s, etMode, onConnect), user, run, s.rbuf.Contents());
  }

  /** From an empty write buffer, the bytes the socket has taken are always a prefix of what the one thread sent,
      in its program order, whatever else is posted. */
  lemma EndToEndOrder(q: Q.State<Job>, s: Session, etMode: bool, onConnect: Script, user: nat, run: seq<Action>)
    requires Unused(q)
    requires s.Valid() && s.phase == Free && !s.crashed && s.wbuf.Contents() == [] && SendFree(onConnect)
    requires LegalRun(Opened(q, s, etMode, onConnect), user, run)
    ensures var w := RunAll(Opened(q, s, etMode, onConnect), user, run);
            w.s.h.delivered <= Bytes(Q.Of(w.q.called, user))
  {
    RunIsGood(q, s, etMode, onConnect, user, run);
    InvOrders(RunAll(Opened(q, s, etMode, onConnect), user, run), user, s.rbuf.Contents());
  }

  /** While the session is open nothing the thread sent is missing: it is delivered, or buffered, or in the queue,
      or on its way there, in this order. */
  lemma EndToEndConservation(q: Q.State<Job>, s: Session, etMode: bool, onConnect: Script, user: nat, run: seq<Action>)
    requires Unused(q)
    requires s.Valid() && s.phase == Free && !s.crashed && s.wbuf.Contents() == [] && SendFree(onConnect)
    requires LegalRun(Opened(q, s, etMode, onConnect), user, run)
    ensures var w := RunAll(Opened(q, s, etMode, onConnect), user, run);
            w.s.phase == Open && !w.s.crashed ==> Accounted(w, user)
  {
    RunIsGood(q, s, etMode, onConnect, user, run);
    var w := RunAll(Opened(q, s, etMode, onConnect), user, run);
    if w.s.phase == Open && !w.s.crashed { InvAccounts(w, user, s.rbuf.Contents()); }
  }
}
