/** EventLoop's task queue (potato/net/EventLoop.cpp) as interleaved steps: any number of threads post under
    mutex_, the loop thread swaps the queue out and runs it unlocked. */
module TaskQueue {

  /** A task with the thread that posted it. */
  datatype Posted<T> = Posted(who: nat, task: T)

  datatype Owner = Nobody | Loop | Thread(id: nat)

  /** Where startLoop is. */
  datatype LoopPc<T> =
    | NotStarted
    | Testing                        // while (looping_)
    | Polling                        // in handleIOEvent
    | WantLock
    | Locked                         // before the swap
    | Swapped(batch: seq<Posted<T>>) // after it, still holding mutex_
    | Running(batch: seq<Posted<T>>)
    | Exited

  /** Where a posting thread is in runInLoop. */
  datatype PostPc<T> = Want(task: T) | Holding(task: T) | Pushed

  /** called, posted and executed record, in order: entries into runInLoop, pushes, and tasks run by the loop.
      inlined are tasks of the loop thread itself. watched: wakeupEvent_ is registered for reading. */
  datatype State<T> = State(pc: LoopPc<T>, looping: bool, watched: bool, owner: Owner, pending: seq<Posted<T>>,
                            posters: map<nat, PostPc<T>>,
                            called: seq<Posted<T>>, posted: seq<Posted<T>>,
                            executed: seq<Posted<T>>, inlined: seq<T>)

  datatype Action<T> =
    | Start | Test | EndPoll | LockLoop | Swap | UnlockLoop | RunOne | BatchDone
    | RunInline(task: T)
    | Call(id: nat, task: T) | LockPost(id: nat) | Push(id: nat) | UnlockPost(id: nat)
    | Stop

  function New<T>(): State<T> {
    State(NotStarted, false, false, Nobody, [], map[], [], [], [], [])
  }

  /** A step that fails no assert. Start: startLoop asserts that looping_ is not set, and enableIOReading that
      wakeupEvent_ is not registered. */
  predicate Enabled<T>(s: State<T>, a: Action<T>) {
    match a
    case Start => (s.pc.NotStarted? || s.pc.Exited?) && !s.looping && !s.watched
    case Test => s.pc.Testing?
    case EndPoll => s.pc.Polling?
    case LockLoop => s.pc.WantLock? && s.owner.Nobody?
    case Swap => s.pc.Locked?
    case UnlockLoop => s.pc.Swapped?
    case RunOne => s.pc.Running? && s.pc.batch != []
    case BatchDone => s.pc.Running? && s.pc.batch == []
    case RunInline(_) => s.pc.NotStarted? || s.pc.Polling? || s.pc.Running? || s.pc.Exited?
    case Call(id, _) => id !in s.posters
    case LockPost(id) => id in s.posters && s.posters[id].Want? && s.owner.Nobody?
    case Push(id) => id in s.posters && s.posters[id].Holding?
    case UnlockPost(id) => id in s.posters && s.posters[id].Pushed?
    case Stop => s.looping
  }

  function Apply<T>(s: State<T>, a: Action<T>): State<T>
    requires Enabled(s, a)
  {
    match a
    case Start => s.(pc := Testing, looping := true, watched := true)
    case Test => s.(pc := if s.looping then Polling else Exited)
    case EndPoll => s.(pc := WantLock)
    case LockLoop => s.(pc := Locked, owner := Loop)
    case Swap => s.(pc := Swapped(s.pending), pending := [])
    case UnlockLoop => s.(pc := Running(s.pc.batch), owner := Nobody)
    case RunOne => s.(pc := Running(s.pc.batch[1..]), executed := s.executed + [s.pc.batch[0]])
    case BatchDone => s.(pc := Testing)
    case RunInline(t) => s.(inlined := s.inlined + [t])
    case Call(id, t) => s.(posters := s.posters[id := Want(t)], called := s.called + [Posted(id, t)])
    case LockPost(id) => s.(posters := s.posters[id := Holding(s.posters[id].task)], owner := Thread(id))
    case Push(id) =>
      var p := Posted(id, s.posters[id].task);
      s.(posters := s.posters[id := Pushed], pending := s.pending + [p], posted := s.posted + [p])
    case UnlockPost(id) => s.(posters := s.posters - {id}, owner := Nobody)
    case Stop => s.(looping := false)
  }

  predicate LegalRun<T>(s: State<T>, run: seq<Action<T>>)
    decreases run
  {
    run == [] || (Enabled(s, run[0]) && LegalRun(Apply(s, run[0]), run[1..]))
  }

  function RunAll<T>(s: State<T>, run: seq<Action<T>>): State<T>
    requires LegalRun(s, run)
    decreases run
  {
    if run == [] then s else RunAll(Apply(s, run[0]), run[1..])
  }

  // ---------------------------------------------------------------------------
  // The invariant
  // ---------------------------------------------------------------------------

  function Batch<T>(pc: LoopPc<T>): seq<Posted<T>> {
    if pc.Swapped? || pc.Running? then pc.batch else []
  }

  function Of<T>(ps: seq<Posted<T>>, id: nat): seq<T> {
    if ps == [] then []
    else (if ps[0].who == id then [ps[0].task] else []) + Of(ps[1..], id)
  }

  /** The task a thread is still carrying to the queue. */
  function Carried<T>(s: State<T>, id: nat): seq<T> {
    if id in s.posters && !s.posters[id].Pushed? then [s.posters[id].task] else []
  }

  ghost predicate Exclusive<T>(s: State<T>) {
    && (s.owner.Loop? <==> s.pc.Locked? || s.pc.Swapped?)
    && (forall id | id in s.posters :: !s.posters[id].Want? <==> s.owner == Thread(id))
    && (s.owner.Thread? ==> s.owner.id in s.posters)
  }

  ghost predicate Conserved<T>(s: State<T>) {
    s.posted == s.executed + Batch(s.pc) + s.pending
  }

  ghost predicate InProgramOrder<T>(s: State<T>) {
    forall id: nat :: Of(s.called, id) == Of(s.posted, id) + Carried(s, id)
  }

  ghost predicate Inv<T>(s: State<T>) {
    Exclusive(s) && Conserved(s) && InProgramOrder(s) && (s.watched <==> !s.pc.NotStarted?)
  }

  lemma {:induction false} OfAppend<T>(ps: seq<Posted<T>>, p: Posted<T>, id: nat)
    ensures Of(ps + [p], id) == Of(ps, id) + (if p.who == id then [p.task] else [])
  {
    if ps == [] {
      assert [p][1..] == [] && ps + [p] == [p];
    } else {
      assert (ps + [p])[1..] == ps[1..] + [p];
      OfAppend(ps[1..], p, id);
    }
  }

  lemma StepConserves<T>(s: State<T>, a: Action<T>)
    requires Enabled(s, a) && Exclusive(s) && Conserved(s)
    ensures Conserved(Apply(s, a))
  {}

  lemma StepKeepsOrder<T>(s: State<T>, a: Action<T>)
    requires Enabled(s, a) && InProgramOrder(s)
    ensures InProgramOrder(Apply(s, a))
  {
    var s' := Apply(s, a);
    forall id: nat
      ensures Of(s'.called, id) == Of(s'.posted, id) + Carried(s', id)
    {
      assert Of(s.called, id) == Of(s.posted, id) + Carried(s, id);
      match a
      case Call(who, t) => OfAppend(s.called, Posted(who, t), id);
      case Push(who) => OfAppend(s.posted, Posted(who, s.posters[who].task), id);
      case _ =>
    }
  }

  lemma StepKeeps<T>(s: State<T>, a: Action<T>)
    requires Enabled(s, a) && Inv(s)
    ensures Inv(Apply(s, a))
  {
    StepConserves(s, a);
    StepKeepsOrder(s, a);
  }

  lemma {:induction false} RunKeeps<T>(s: State<T>, run: seq<Action<T>>)
    requires LegalRun(s, run) && Inv(s)
    ensures Inv(RunAll(s, run))
    decreases run
  {
    if run != [] {
      StepKeeps(s, run[0]);
      RunKeeps(Apply(s, run[0]), run[1..]);
    }
  }

  // ---------------------------------------------------------------------------
  // Theorems about all runs
  // ---------------------------------------------------------------------------

  /** Conservation and order: what was pushed, in lock order, is what ran, then the rest of the batch, then what is
      pending. So each task runs at most once, and in order. */
  lemma QueueConservation<T>(run: seq<Action<T>>)
    requires LegalRun(New(), run)
    ensures var s := RunAll(New(), run);
            s.posted == s.executed + Batch(s.pc) + s.pending && s.executed <= s.posted
  {
    RunKeeps(New(), run);
  }

  /** At loop exit the only tasks not run are those still pending. */
  lemma ExitLeavesOnlyPending<T>(run: seq<Action<T>>)
    requires LegalRun(New(), run) && RunAll(New(), run).pc.Exited?
    ensures var s := RunAll(New(), run); s.posted == s.executed + s.pending
  {
    RunKeeps(New(), run);
  }

  /** The loop thread never runs a task, posted or inline, while it holds mutex_; and two threads never hold it. */
  lemma TasksRunUnlocked<T>(run: seq<Action<T>>, a: Action<T>)
    requires LegalRun(New(), run) && Enabled(RunAll(New(), run), a)
    ensures var s := RunAll(New(), run);
            && (a.RunOne? || a.RunInline? ==> !s.owner.Loop?)
            && (a.Swap? ==> forall id | id in s.posters :: s.posters[id].Want?)
            && (a.Push? ==> s.owner == Thread(a.id) && !s.pc.Locked? && !s.pc.Swapped?)
  {
    RunKeeps(New(), run);
  }

  /** Each thread's tasks are pushed in the order it called runInLoop; at most the last is still on its way. */
  lemma ProgramOrder<T>(run: seq<Action<T>>, id: nat)
    requires LegalRun(New(), run)
    ensures var s := RunAll(New(), run);
            Of(s.posted, id) <= Of(s.called, id) && |Of(s.called, id)| <= |Of(s.posted, id)| + 1
  {
    RunKeeps(New(), run);
  }

  /** Exactly when another thread is between its lock and its unlock does some thread hold mutex_ while the loop thread
      may run a task. */
  lemma MutexHeldIffPosterInside<T>(run: seq<Action<T>>, a: Action<T>)
    requires LegalRun(New(), run) && Enabled(RunAll(New(), run), a) && (a.RunOne? || a.RunInline?)
    ensures var s := RunAll(New(), run);
            !s.owner.Nobody? <==> exists id :: id in s.posters && !s.posters[id].Want?
  {
    RunKeeps(New(), run);
    var s := RunAll(New(), run);
    if s.owner.Thread? { assert s.owner.id in s.posters && !s.posters[s.owner.id].Want?; }
  }

  /** A loop starts at most once: once stopped, its wakeupEvent_ is still registered, so startLoop fails an assert. */
  lemma LoopStartsOnce<T>(run: seq<Action<T>>)
    requires LegalRun(New(), run)
    ensures var s := RunAll(New(), run);
            && (Enabled(s, Start) ==> s.pc.NotStarted?)
            && (s.pc.Exited? ==> s.watched && !Enabled(s, Start))
  {
    RunKeeps(New(), run);
  }

  ghost predicate Reachable<T(!new)>(s: State<T>) {
    exists run: seq<Action<T>> :: LegalRun(New(), run) && RunAll(New(), run) == s
  }

  lemma {:induction false} RunAppend<T>(s: State<T>, run: seq<Action<T>>, more: seq<Action<T>>)
    requires LegalRun(s, run) && LegalRun(RunAll(s, run), more)
    ensures LegalRun(s, run + more) && RunAll(s, run + more) == RunAll(RunAll(s, run), more)
    decreases run
  {
    if run == [] {
      assert run + more == more;
    } else {
      assert (run + more)[1..] == run[1..] + more;
      RunAppend(Apply(s, run[0]), run[1..], more);
    }
  }

  lemma LegalAppend<T>(s: State<T>, run: seq<Action<T>>, a: Action<T>)
    requires LegalRun(s, run) && Enabled(RunAll(s, run), a)
    ensures LegalRun(s, run + [a]) && RunAll(s, run + [a]) == Apply(RunAll(s, run), a)
  {
    var s1 := RunAll(s, run);
    assert [a][1..] == [] && LegalRun(Apply(s1, a), []) && RunAll(Apply(s1, a), []) == Apply(s1, a);
    RunAppend(s, run, [a]);
  }

  lemma ReachStep<T(!new)>(s: State<T>, a: Action<T>) returns (s': State<T>)
    requires Reachable(s) && Enabled(s, a)
    ensures Reachable(s') && s' == Apply(s, a)
  {
    var run: seq<Action<T>> :| LegalRun(New(), run) && RunAll(New(), run) == s;
    LegalAppend(New(), run, a);
    s' := Apply(s, a);
  }

  lemma NewIsReachable<T(!new)>()
    ensures Reachable(New<T>())
  {
    assert LegalRun(New<T>(), []) && RunAll(New<T>(), []) == New<T>();
  }

  lemma ReachableIsGood<T(!new)>(s: State<T>)
    requires Reachable(s)
    ensures Inv(s)
  {
    var run: seq<Action<T>> :| LegalRun(New(), run) && RunAll(New(), run) == s;
    RunKeeps(New(), run);
  }

  /** Thread 0 posts a task, undisturbed. */
  lemma PostStep<T(!new)>(s: State<T>, t: T) returns (s': State<T>)
    requires Reachable(s) && s.owner.Nobody? && s.posters == map[]
    ensures Reachable(s')
    ensures s' == s.(called := s.called + [Posted(0, t)], posted := s.posted + [Posted(0, t)],
                     pending := s.pending + [Posted(0, t)])
  {
    s' := ReachStep(s, Call(0, t));
    s' := ReachStep(s', LockPost(0));
    s' := ReachStep(s', Push(0));
    s' := ReachStep(s', UnlockPost(0));
  }

  /** The loop takes the pending tasks, undisturbed. */
  lemma TakeStep<T(!new)>(s: State<T>) returns (s': State<T>)
    requires Reachable(s) && s.pc.Polling? && s.owner.Nobody?
    ensures Reachable(s') && s' == s.(pc := Running(s.pending), pending := [])
  {
    s' := ReachStep(s, EndPoll);
    s' := ReachStep(s', LockLoop);
    s' := ReachStep(s', Swap);
    s' := ReachStep(s', UnlockLoop);
  }

  /** One thread posts a task, and the loop starts and takes it. */
  lemma OneTaskRunning<T(!new)>(t: T) returns (s: State<T>)
    ensures Reachable(s) && s.pc == Running([Posted(0, t)]) && s.looping && s.owner.Nobody?
    ensures s.posters == map[] && s.pending == [] && s.executed == []
  {
    NewIsReachable<T>();
    s := PostStep(New(), t);
    s := ReachStep(s, Start);
    s := ReachStep(s, Test);
    s := TakeStep(s);
  }

  /** Another thread may hold mutex_ while the loop thread runs a task. */
  lemma MutexHeldWhileTaskRuns<T(!new)>(t: T)
    ensures exists s: State<T> :: Reachable(s) && Enabled(s, RunOne) && s.owner == Thread(1)
  {
    var s := OneTaskRunning(t);
    s := ReachStep(s, Call(1, t));
    s := ReachStep(s, LockPost(1));
    assert Enabled(s, RunOne) && s.owner == Thread(1);
  }

  // ---------------------------------------------------------------------------
  // How a loop ends
  // ---------------------------------------------------------------------------

  /** The steps of the loop thread. */
  predicate LoopThread<T>(a: Action<T>) {
    !(a.Call? || a.LockPost? || a.Push? || a.UnlockPost? || a.Stop?)
  }

  /** Between two turns the loop thread can only test looping_: clear, the loop is over; set, it polls. */
  lemma FlagDecides<T>(run: seq<Action<T>>, a: Action<T>)
    requires LegalRun(New(), run) && RunAll(New(), run).pc.Testing?
    requires LoopThread(a) && Enabled(RunAll(New(), run), a)
    ensures var s := RunAll(New(), run);
            && (!s.looping ==> Apply(s, a) == s.(pc := Exited))
            && (s.looping ==> Apply(s, a) == s.(pc := Polling))
  {}

  /** How many batches a run swaps out. */
  function Swaps<T>(run: seq<Action<T>>): nat {
    if run == [] then 0 else (if run[0].Swap? then 1 else 0) + Swaps(run[1..])
  }

  /** After a stop the loop runs at most the rest of its batch, or, if it has not yet swapped in this turn, the one
      batch it then swaps out; and it is never set going again. */
  lemma {:induction false} StopEndsLoop<T>(s: State<T>, run: seq<Action<T>>)
    requires Inv(s) && LegalRun(s, run) && !s.looping && s.watched
    ensures var s' := RunAll(s, run);
            && !s'.looping && !s'.pc.NotStarted?
            && (s.pc.Polling? || s.pc.WantLock? || s.pc.Locked? ==> Swaps(run) <= 1)
            && (s.pc.Swapped? || s.pc.Running? || s.pc.Testing? || s.pc.Exited? ==>
                  Swaps(run) == 0 && s'.executed <= s.executed + Batch(s.pc)
                  && !s'.pc.Polling? && !s'.pc.WantLock? && !s'.pc.Locked?)
    decreases run
  {
    if run != [] {
      StepKeeps(s, run[0]);
      StopEndsLoop(Apply(s, run[0]), run[1..]);
    }
  }

  /** Where a stopped loop is in its last turn. */
  function StepsLeft<T>(pc: LoopPc<T>): nat {
    match pc
    case Polling => 6
    case WantLock => 5
    case Locked => 4
    case Swapped(_) => 3
    case Running(_) => 2
    case Testing => 1
    case _ => 0
  }

  function PosterLeft<T>(s: State<T>): nat {
    if s.owner.Thread? && s.owner.id in s.posters then
      match s.posters[s.owner.id]
      case Holding(_) => 2
      case Pushed => 1
      case _ => 0
    else 0
  }

  /** What a stopped loop, or the thread it waits for, does next. */
  function NextOfLast<T>(s: State<T>): Action<T> {
    match s.pc
    case Polling => EndPoll
    case WantLock =>
      if s.owner.Thread? then
        if s.owner.id in s.posters && s.posters[s.owner.id].Pushed? then UnlockPost(s.owner.id) else Push(s.owner.id)
      else LockLoop
    case Locked => Swap
    case Swapped(_) => UnlockLoop
    case Running(batch) => if batch == [] then BatchDone else RunOne
    case _ => Test
  }

  lemma NextOfLastComesNearer<T>(s: State<T>)
    requires Inv(s) && !s.looping && s.watched && !s.pc.Exited?
    ensures var a := NextOfLast(s);
            && Enabled(s, a) && !Apply(s, a).looping && Apply(s, a).watched
            && (if s.pc.WantLock? && s.owner.Thread? then
                  Apply(s, a).pc == s.pc && PosterLeft(Apply(s, a)) < PosterLeft(s)
                else if a.RunOne? then
                  StepsLeft(Apply(s, a).pc) == StepsLeft(s.pc) && |Batch(Apply(s, a).pc)| < |Batch(s.pc)|
                else
                  StepsLeft(Apply(s, a).pc) < StepsLeft(s.pc))
  {}

  /** A stopped loop can always go on to its exit. */
  lemma {:induction false} StoppedLoopCanExit<T(!new)>(s: State<T>) returns (s': State<T>)
    requires Reachable(s) && !s.looping && s.watched
    ensures Reachable(s') && s'.pc.Exited?
    decreases StepsLeft(s.pc), |Batch(s.pc)|, PosterLeft(s)
  {
    s' := s;
    if !s.pc.Exited? {
      ReachableIsGood(s);
      NextOfLastComesNearer(s);
      s' := ReachStep(s, NextOfLast(s));
      s' := StoppedLoopCanExit(s');
    }
  }

  /** The last task of a batch runs, and the loop is stopped. */
  lemma LastTaskThenStop<T(!new)>(s: State<T>, p: Posted<T>) returns (s': State<T>)
    requires Reachable(s) && s.looping && s.pc == Running([p])
    ensures Reachable(s') && s' == s.(pc := Exited, looping := false, executed := s.executed + [p])
  {
    s' := ReachStep(s, RunOne);
    s' := ReachStep(s', Stop);
    s' := ReachStep(s', BatchDone);
    s' := ReachStep(s', Test);
  }

  /** A loop may end with one task executed and another still pending. */
  lemma ExitWithPending<T(!new)>(t: T, u: T)
    ensures exists s: State<T> :: Reachable(s) && s.pc.Exited?
              && s.executed == [Posted(0, t)] && s.pending == [Posted(0, u)]
  {
    var s := OneTaskRunning(t);
    s := PostStep(s, u);
    s := LastTaskThenStop(s, Posted(0, t));
    assert Reachable(s) && s.pc.Exited?;
  }

  // ---------------------------------------------------------------------------
  // The records
  // ---------------------------------------------------------------------------

  function CalledBy<T>(a: Action<T>): seq<Posted<T>> {
    if a.Call? then [Posted(a.id, a.task)] else []
  }

  function Called<T>(run: seq<Action<T>>): seq<Posted<T>> {
    if run == [] then [] else CalledBy(run[0]) + Called(run[1..])
  }

  function InlinedBy<T>(a: Action<T>): seq<T> {
    if a.RunInline? then [a.task] else []
  }

  function Inlined<T>(run: seq<Action<T>>): seq<T> {
    if run == [] then [] else InlinedBy(run[0]) + Inlined(run[1..])
  }

  function Executions<T>(run: seq<Action<T>>): nat {
    if run == [] then 0 else (if run[0].RunOne? then 1 else 0) + Executions(run[1..])
  }

  function Pushes<T>(run: seq<Action<T>>): nat {
    if run == [] then 0 else (if run[0].Push? then 1 else 0) + Pushes(run[1..])
  }

  lemma StepRecords<T>(s: State<T>, a: Action<T>)
    requires Enabled(s, a)
    ensures Apply(s, a).called == s.called + CalledBy(a) && Apply(s, a).inlined == s.inlined + InlinedBy(a)
    ensures |Apply(s, a).executed| == |s.executed| + (if a.RunOne? then 1 else 0)
    ensures |Apply(s, a).posted| == |s.posted| + (if a.Push? then 1 else 0)
  {}

  lemma AppendIsAssociative<U>(x: seq<U>, y: seq<U>, z: seq<U>)
    ensures x + y + z == x + (y + z)
  {}

  /** The records say what happened: called and inlined are the tasks of the calls, in order. */
  lemma {:induction false} RecordsAreTrue<T>(s: State<T>, run: seq<Action<T>>)
    requires LegalRun(s, run)
    ensures RunAll(s, run).called == s.called + Called(run)
    ensures RunAll(s, run).inlined == s.inlined + Inlined(run)
    decreases run
  {
    if run != [] {
      StepRecords(s, run[0]);
      RecordsAreTrue(Apply(s, run[0]), run[1..]);
      AppendIsAssociative(s.called, CalledBy(run[0]), Called(run[1..]));
      AppendIsAssociative(s.inlined, InlinedBy(run[0]), Inlined(run[1..]));
    }
  }

  /** A push posts one task, and the loop runs one task at a time. */
  lemma {:induction false} OneTaskAtATime<T>(s: State<T>, run: seq<Action<T>>)
    requires LegalRun(s, run)
    ensures |RunAll(s, run).executed| == |s.executed| + Executions(run)
    ensures |RunAll(s, run).posted| == |s.posted| + Pushes(run)
    decreases run
  {
    if run != [] {
      StepRecords(s, run[0]);
      OneTaskAtATime(Apply(s, run[0]), run[1..]);
    }
  }

  // ---------------------------------------------------------------------------
  // The object
  // ---------------------------------------------------------------------------

  function Tasks<T>(ps: seq<Posted<T>>): (ts: seq<T>)
    ensures |ts| == |ps|
  {
    if ps == [] then [] else [ps[0].task] + Tasks(ps[1..])
  }

  lemma {:induction false} TasksAppend<T>(ps: seq<Posted<T>>, qs: seq<Posted<T>>)
    ensures Tasks(ps + qs) == Tasks(ps) + Tasks(qs)
  {
    if ps == [] {
      assert ps + qs == qs;
    } else {
      assert (ps + qs)[1..] == ps[1..] + qs;
      TasksAppend(ps[1..], qs);
    }
  }

  /** ts as thread 0 posts them. */
  function FromZero<T>(ts: seq<T>): (ps: seq<Posted<T>>)
    ensures Tasks(ps) == ts
  {
    if ts == [] then [] else [Posted(0, ts[0])] + FromZero(ts[1..])
  }

  /** Other threads post ts, one after another. */
  function AfterPosts<T>(s: State<T>, ts: seq<T>): State<T> {
    s.(called := s.called + FromZero(ts), posted := s.posted + FromZero(ts), pending := s.pending + FromZero(ts))
  }

  lemma {:induction false} PostSteps<T(!new)>(s: State<T>, ts: seq<T>)
    requires Reachable(s) && s.owner.Nobody? && s.posters == map[]
    ensures Reachable(AfterPosts(s, ts))
    decreases |ts|
  {
    if ts == [] {
      assert AfterPosts(s, ts) == s;
    } else {
      var s1 := PostStep(s, ts[0]);
      PostSteps(s1, ts[1..]);
      AppendIsAssociative(s.called, [Posted(0, ts[0])], FromZero(ts[1..]));
      AppendIsAssociative(s.posted, [Posted(0, ts[0])], FromZero(ts[1..]));
      AppendIsAssociative(s.pending, [Posted(0, ts[0])], FromZero(ts[1..]));
      assert AfterPosts(s, ts) == AfterPosts(s1, ts[1..]);
    }
  }

  lemma StartStep<T(!new)>(s: State<T>) returns (s': State<T>)
    requires Reachable(s) && s.pc.NotStarted? && !s.looping && !s.watched
    ensures Reachable(s') && s' == s.(pc := Testing, looping := true, watched := true)
  {
    s' := ReachStep(s, Start);
  }

  lemma TestStep<T(!new)>(s: State<T>) returns (s': State<T>)
    requires Reachable(s) && s.pc.Testing?
    ensures Reachable(s') && s' == s.(pc := if s.looping then Polling else Exited)
  {
    s' := ReachStep(s, Test);
  }

  lemma RunStep<T(!new)>(s: State<T>) returns (s': State<T>)
    requires Reachable(s) && s.pc.Running? && s.pc.batch != []
    ensures Reachable(s') && s' == s.(pc := Running(s.pc.batch[1..]), executed := s.executed + [s.pc.batch[0]])
    ensures Tasks(s'.executed) == Tasks(s.executed) + [s.pc.batch[0].task]
  {
    s' := ReachStep(s, RunOne);
    TasksAppend(s.executed, [s.pc.batch[0]]);
    assert [s.pc.batch[0]][1..] == [];
  }

  lemma DoneStep<T(!new)>(s: State<T>) returns (s': State<T>)
    requires Reachable(s) && s.pc == Running([])
    ensures Reachable(s') && s' == s.(pc := Testing)
  {
    s' := ReachStep(s, BatchDone);
  }

  lemma StopStep<T(!new)>(s: State<T>) returns (s': State<T>)
    requires Reachable(s) && s.looping
    ensures Reachable(s') && s' == s.(looping := false)
  {
    s' := ReachStep(s, Stop);
  }

  lemma InlineStep<T(!new)>(s: State<T>, t: T) returns (s': State<T>)
    requires Reachable(s) && Enabled(s, RunInline(t))
    ensures Reachable(s') && s' == s.(inlined := s.inlined + [t])
  {
    s' := ReachStep(s, RunInline(t));
  }

  /** arrivals(0), ..., arrivals(n - 1) one after another. */
  function Collect<T>(arrivals: nat -> seq<T>, n: nat): seq<T> {
    if n == 0 then [] else Collect(arrivals, n - 1) + arrivals(n - 1)
  }

  lemma NextOfBatch<T>(batch: seq<T>, i: nat)
    requires i < |batch|
    ensures batch[i..] != [] && batch[i..][0] == batch[i] && batch[i..][1..] == batch[i + 1..]
    ensures batch[..i + 1] == batch[..i] + [batch[i]]
  {}

  /** One turn of the loop: what other threads post while it polls and while functor i of the batch runs, whether it is
      stopped, and whether a task of the loop thread does that. */
  datatype Turn<T> = Turn(polled: seq<T>, during: nat -> seq<T>, stop: bool, byLoop: bool)

  /** The object. Its methods run when no other thread is inside runInLoop, and each is a run of the steps above. */
  class EventLoop<T(!new)> {
    var looping: bool
    var watched: bool          // wakeupEvent_ is registered
    var pendingFunctors: seq<T>
    ghost var wakeups: nat     // calls of wakeup
    ghost var steps: State<T>  // the state of the steps

    /** batch is what the loop thread still has to run. */
    ghost predicate Running(batch: seq<T>)
      reads this
    {
      && Reachable(steps) && steps.owner.Nobody? && steps.posters == map[]
      && steps.looping == looping && steps.watched == watched && Tasks(steps.pending) == pendingFunctors
      && Tasks(Batch(steps.pc)) == batch
      && |steps.posted| <= wakeups
    }

    ghost predicate Valid()
      reads this
    {
      Running([])
    }

    ghost function PostedTasks(): seq<T>
      reads this
    {
      Tasks(steps.posted)
    }

    ghost function ExecutedTasks(): seq<T>
      reads this
    {
      Tasks(steps.executed)
    }

    /** Nothing posted is lost or reordered. */
    lemma PostedIsExecutedOrPending()
      requires Valid()
      ensures PostedTasks() == ExecutedTasks() + pendingFunctors
    {
      ReachableIsGood(steps);
      TasksAppend(steps.executed, steps.pending);
      assert steps.executed + [] + steps.pending == steps.executed + steps.pending;
    }

    constructor ()
      ensures Valid() && steps == New() && wakeups == 0
    {
      looping, watched, pendingFunctors, wakeups, steps := false, false, [], 0, New();
      new;
      NewIsReachable<T>();
    }

    /** Another thread than the loop's calls wakeup, as it does for each task it posts. */
    method StopLoop(inLoopThread: bool)
      requires Valid() && looping
      modifies this`looping, this`wakeups, this`steps
      ensures Valid() && !looping && steps == old(steps).(looping := false)
      ensures wakeups == old(wakeups) + if inLoopThread then 0 else 1
    {
      looping := false;
      if !inLoopThread {
        wakeups := wakeups + 1;
      }
      steps := StopStep(steps);
    }

    /** On the loop thread only where user code runs. */
    method RunInLoop(func: T, inLoopThread: bool)
      requires Valid() && (inLoopThread ==> Enabled(steps, RunInline(func)))
      modifies this`pendingFunctors, this`wakeups, this`steps
      ensures Valid()
      ensures inLoopThread ==> steps == old(steps.(inlined := steps.inlined + [func])) && wakeups == old(wakeups)
      ensures !inLoopThread ==> steps == AfterPosts(old(steps), [func]) && wakeups == old(wakeups) + 1
      ensures pendingFunctors == old(pendingFunctors) + if inLoopThread then [] else [func]
    {
      if inLoopThread {
        steps := InlineStep(steps, func);
      } else {
        Arrive([func]);
      }
    }

    /** What runInLoop does for tasks of other threads. */
    method Arrive(funcs: seq<T>)
      requires Running(Tasks(Batch(steps.pc)))
      modifies this`pendingFunctors, this`wakeups, this`steps
      ensures steps == AfterPosts(old(steps), funcs) && Running(Tasks(Batch(steps.pc)))
      ensures pendingFunctors == old(pendingFunctors) + funcs && wakeups == old(wakeups) + |funcs|
    {
      pendingFunctors := pendingFunctors + funcs;
      wakeups := wakeups + |funcs|;
      PostSteps(steps, funcs);
      TasksAppend(steps.pending, FromZero(funcs));
      steps := AfterPosts(steps, funcs);
    }

    /** Runs the tasks pending at the swap, in order, and leaves what was posted since. */
    method CallPendingFunctors(arrivals: nat -> seq<T>)
      requires Valid() && steps.pc.Polling?
      modifies this`pendingFunctors, this`wakeups, this`steps
      ensures Valid() && steps.pc.Testing? && steps.inlined == old(steps.inlined)
      ensures ExecutedTasks() == old(ExecutedTasks()) + old(pendingFunctors)
      ensures pendingFunctors == Collect(arrivals, |old(pendingFunctors)|)
    {
      ghost var before := steps;
      var functors := pendingFunctors;
      pendingFunctors := [];
      TakePending(functors, arrivals);
      var i := 0;
      while i < |functors|
        invariant InBatch(functors, i, arrivals, before)
      {
        RunNext(functors, i, arrivals, before);
        i := i + 1;
      }
      FinishBatch(functors, arrivals, before);
    }

    /** The first i functors of the batch have run, and their arrivals wait; before is the state before the swap. */
    ghost predicate InBatch(functors: seq<T>, i: nat, arrivals: nat -> seq<T>, before: State<T>)
      reads this
    {
      && i <= |functors| && Running(functors[i..]) && steps.pc.Running? && steps.inlined == before.inlined
      && ExecutedTasks() == Tasks(before.executed) + functors[..i] && pendingFunctors == Collect(arrivals, i)
    }

    /** The swap. */
    ghost method TakePending(functors: seq<T>, arrivals: nat -> seq<T>)
      requires Reachable(steps) && steps.owner.Nobody? && steps.posters == map[] && steps.pc.Polling?
      requires steps.looping == looping && steps.watched == watched && |steps.posted| <= wakeups
      requires Tasks(steps.pending) == functors && pendingFunctors == []
      modifies this`steps
      ensures InBatch(functors, 0, arrivals, old(steps))
    {
      steps := TakeStep(steps);
      assert functors[0..] == functors;
    }

    /** Functor i of the batch runs, and its arrivals are posted meanwhile. */
    method RunNext(functors: seq<T>, i: nat, arrivals: nat -> seq<T>, ghost before: State<T>)
      requires InBatch(functors, i, arrivals, before) && i < |functors|
      modifies this`pendingFunctors, this`wakeups, this`steps
      ensures InBatch(functors, i + 1, arrivals, before)
    {
      NextOfBatch(functors, i);
      RunFirst(functors[i..]);
      Arrive(arrivals(i));
    }

    ghost method FinishBatch(functors: seq<T>, arrivals: nat -> seq<T>, before: State<T>)
      requires InBatch(functors, |functors|, arrivals, before)
      modifies this`steps
      ensures Valid() && steps.pc.Testing? && steps.inlined == before.inlined
      ensures ExecutedTasks() == Tasks(before.executed) + functors && pendingFunctors == Collect(arrivals, |functors|)
    {
      assert functors[|functors|..] == [] && functors[..|functors|] == functors;
      steps := DoneStep(steps);
    }

    /** The next functor of the batch runs. */
    ghost method RunFirst(batch: seq<T>)
      requires Running(batch) && steps.pc.Running? && batch != []
      modifies this`steps
      ensures Running(batch[1..]) && steps.pc.Running? && steps.inlined == old(steps.inlined)
      ensures ExecutedTasks() == old(ExecutedTasks()) + [batch[0]]
    {
      steps := RunStep(steps);
    }

    ghost method TestFlag()
      requires Valid() && steps.pc.Testing?
      modifies this`steps
      ensures Valid() && steps == old(steps).(pc := if looping then Polling else Exited)
    {
      steps := TestStep(steps);
    }

    /** One turn. */
    method RunTurn(turn: Turn<T>)
      requires Valid() && looping && steps.pc.Testing?
      modifies this`looping, this`pendingFunctors, this`wakeups, this`steps
      ensures Valid() && looping == !turn.stop && steps.pc.Testing? && steps.inlined == old(steps.inlined)
      ensures ExecutedTasks() == old(ExecutedTasks()) + old(pendingFunctors) + turn.polled
      ensures pendingFunctors == Collect(turn.during, |old(pendingFunctors) + turn.polled|)
    {
      TestFlag();
      Arrive(turn.polled);
      CallPendingFunctors(turn.during);
      if turn.stop {
        StopLoop(turn.byLoop);
      }
    }

    /** Runs until some turn stops it, and cannot be called again. What was pending runs first, then what other threads
        post, in order; what is left is pending. */
    method StartLoop(turns: seq<Turn<T>>)
      requires Valid() && steps.pc.NotStarted? && !looping && !watched && Stops(turns)
      modifies this
      ensures Valid() && !looping && watched && steps.pc.Exited? && steps.inlined == old(steps.inlined)
      ensures (ExecutedTasks(), pendingFunctors) == RunTurns(turns, old(ExecutedTasks()), old(pendingFunctors))
    {
      ghost var before := steps;
      ghost var goal := RunTurns(turns, ExecutedTasks(), pendingFunctors);
      looping, watched := true, true;
      steps := StartStep(steps);
      assert turns[0..] == turns;
      var i := 0;
      while looping
        invariant InLoop(turns, i, goal, before)
        decreases looping, |turns| - i
      {
        NextTurn(turns, i, goal, before);
        i := i + 1;
      }
      TestFlag();
    }

    /** Turn i is next, and the rest leads to goal. */
    ghost predicate InLoop(turns: seq<Turn<T>>, i: nat, goal: (seq<T>, seq<T>), before: State<T>)
      reads this
    {
      && i <= |turns| && Valid() && watched && steps.pc.Testing? && steps.inlined == before.inlined
      && (looping ==> Stops(turns[i..]))
      && goal == RunTurns(if looping then turns[i..] else [], ExecutedTasks(), pendingFunctors)
    }

    method NextTurn(turns: seq<Turn<T>>, i: nat, ghost goal: (seq<T>, seq<T>), ghost before: State<T>)
      requires InLoop(turns, i, goal, before) && looping && i < |turns|
      modifies this`looping, this`pendingFunctors, this`wakeups, this`steps
      ensures InLoop(turns, i + 1, goal, before)
    {
      NextOfTurns(turns, i, ExecutedTasks(), pendingFunctors);
      assert turns[i..][1..] == turns[i + 1..];
      RunTurn(turns[i]);
    }
  }

  /** Some turn stops the loop. */
  predicate Stops<T>(turns: seq<Turn<T>>) {
    turns != [] && (turns[0].stop || Stops(turns[1..]))
  }

  /** What has run and what is pending after the turns up to the first that stops the loop: each turn runs what was
      pending and what came while it polled, and what comes while those run waits for the next. */
  function RunTurns<T>(turns: seq<Turn<T>>, executed: seq<T>, pending: seq<T>): (r: (seq<T>, seq<T>)) {
    if turns == [] then (executed, pending)
    else
      var batch := pending + turns[0].polled;
      var later := Collect(turns[0].during, |batch|);
      if turns[0].stop then (executed + batch, later) else RunTurns(turns[1..], executed + batch, later)
  }

  lemma NextOfTurns<T>(turns: seq<Turn<T>>, i: nat, executed: seq<T>, pending: seq<T>)
    requires i < |turns|
    ensures var batch := pending + turns[i].polled;
            RunTurns(turns[i..], executed, pending)
            == RunTurns(if turns[i].stop then [] else turns[i + 1..], executed + pending + turns[i].polled,
                        Collect(turns[i].during, |batch|))
  {
    assert turns[i..][1..] == turns[i + 1..];
    AppendIsAssociative(executed, pending, turns[i].polled);
  }
}
