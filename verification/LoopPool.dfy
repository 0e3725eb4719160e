/** EventLoopPool (potato/net/EventLoopPool.cpp): the start barrier as interleaved steps, and round robin. */
module LoopPool {

  // ---------------------------------------------------------------------------
  // start and threadFunc
  // ---------------------------------------------------------------------------

  /** start: spawning, taking lock_, testing the predicate under it, asleep in cond_.wait, returned. */
  datatype StartPc = Spawning(k: nat) | WantLock | Testing | Asleep | Returned

  /** threadFunc: not yet spawned, taking lock_, holding it, after the push, after notify_one, in startLoop. */
  datatype WorkerPc = NotSpawned | WantsLock | Inside | Pushed | Notified | Looping

  datatype Holder = Nobody | Starter | Worker(i: nat)

  /** loops_ holds the numbers of the threads whose loops are registered. */
  datatype Barrier = Barrier(start: StartPc, workers: seq<WorkerPc>, lock: Holder, loops: seq<nat>)

  datatype Action =
    | Spawn | AllSpawned | StarterLock | TestPredicate | SpuriousWake
    | WorkerLock(i: nat) | Push(i: nat) | Notify(i: nat) | WorkerUnlock(i: nat)

  function New(threadNums: nat): Barrier {
    Barrier(Spawning(0), seq(threadNums, i => NotSpawned), Nobody, [])
  }

  predicate At(s: Barrier, i: nat, pc: WorkerPc) {
    i < |s.workers| && s.workers[i] == pc
  }

  predicate Enabled(s: Barrier, a: Action) {
    match a
    case Spawn => s.start.Spawning? && At(s, s.start.k, NotSpawned)
    case AllSpawned => s.start == Spawning(|s.workers|)
    case StarterLock => s.start.WantLock? && s.lock.Nobody?
    case TestPredicate => s.start.Testing?
    case SpuriousWake => s.start.Asleep?
    case WorkerLock(i) => At(s, i, WantsLock) && s.lock.Nobody?
    case Push(i) => At(s, i, Inside)
    case Notify(i) => At(s, i, Pushed)
    case WorkerUnlock(i) => At(s, i, Notified)
  }

  /** wait releases lock_ and sleeps in one step; a wake-up goes back for the lock and the test. */
  function Apply(s: Barrier, a: Action): Barrier
    requires Enabled(s, a)
  {
    match a
    case Spawn => s.(start := Spawning(s.start.k + 1), workers := s.workers[s.start.k := WantsLock])
    case AllSpawned => s.(start := WantLock)
    case StarterLock => s.(start := Testing, lock := Starter)
    case TestPredicate => s.(start := if |s.loops| == |s.workers| then Returned else Asleep, lock := Nobody)
    case SpuriousWake => s.(start := WantLock)
    case WorkerLock(i) => s.(workers := s.workers[i := Inside], lock := Worker(i))
    case Push(i) => s.(workers := s.workers[i := Pushed], loops := s.loops + [i])
    case Notify(i) =>
      s.(workers := s.workers[i := Notified], start := if s.start.Asleep? then WantLock else s.start)
    case WorkerUnlock(i) => s.(workers := s.workers[i := Looping], lock := Nobody)
  }

  predicate LegalRun(s: Barrier, run: seq<Action>)
    decreases run
  {
    run == [] || (Enabled(s, run[0]) && LegalRun(Apply(s, run[0]), run[1..]))
  }

  function RunAll(s: Barrier, run: seq<Action>): Barrier
    requires LegalRun(s, run)
    decreases run
  {
    if run == [] then s else RunAll(Apply(s, run[0]), run[1..])
  }

  predicate Distinct(q: seq<nat>) {
    forall x, y | 0 <= x < y < |q| :: q[x] != q[y]
  }

  predicate HasRegistered(pc: WorkerPc) { pc.Pushed? || pc.Notified? || pc.Looping? }

  predicate HoldsLock(pc: WorkerPc) { pc.Inside? || pc.Pushed? || pc.Notified? }

  ghost predicate Inv(s: Barrier) {
    && Distinct(s.loops)
    && (forall i | i in s.loops :: i < |s.workers|)
    && (forall i | 0 <= i < |s.workers| :: i in s.loops <==> HasRegistered(s.workers[i]))
    && (forall i | 0 <= i < |s.workers| :: HoldsLock(s.workers[i]) <==> s.lock == Worker(i))
    && (s.lock.Worker? ==> s.lock.i < |s.workers|)
    && (s.lock.Starter? <==> s.start.Testing?)
    && (forall i | 0 <= i < |s.workers| ::
          s.workers[i].NotSpawned? <==> s.start.Spawning? && i >= s.start.k)
    && (s.start.Spawning? ==> s.start.k <= |s.workers|)
    && (s.start.Asleep? ==> |s.loops| < |s.workers| || exists i :: At(s, i, Pushed))
    && (s.start.Returned? ==> |s.loops| == |s.workers|)
  }

  lemma {:induction false} CountBelow(q: seq<nat>, n: nat)
    requires Distinct(q) && forall i | i in q :: i < n
    ensures |q| <= n
    decreases n
  {
    if q != [] {
      assert q[0] in q;
      if n - 1 in q {
        var x :| 0 <= x < |q| && q[x] == n - 1;
        var rest := q[..x] + q[x + 1..];
        forall i | i in rest ensures i < n - 1 { assert i in q; }
        CountBelow(rest, n - 1);
      } else {
        CountBelow(q, n - 1);
      }
    }
  }

  /** Fewer than n distinct numbers below n leave one out. */
  lemma {:induction false} OneIsMissing(q: seq<nat>, n: nat)
    requires Distinct(q) && |q| < n
    ensures exists i: nat :: i < n && i !in q
    decreases n
  {
    if n - 1 in q {
      var x :| 0 <= x < |q| && q[x] == n - 1;
      var rest := q[..x] + q[x + 1..];
      OneIsMissing(rest, n - 1);
      var i: nat :| i < n - 1 && i !in rest;
      assert i !in q;
    } else {
      assert n - 1 < n && n - 1 !in q;
    }
  }

  lemma StepKeeps(s: Barrier, a: Action)
    requires Inv(s) && Enabled(s, a)
    ensures Inv(Apply(s, a))
  {
    var s' := Apply(s, a);
    CountBelow(s.loops, |s.workers|);
    if s.start.Asleep? && a.Push? {
      assert At(s', a.i, Pushed);
    }
    if a.Push? && s.start.Returned? {
      assert a.i !in s.loops;
      CountBelow(s.loops + [a.i], |s.workers|);
    }
  }

  lemma NewIsGood(n: nat)
    ensures Inv(New(n))
  {}

  lemma {:induction false} RunKeeps(s: Barrier, run: seq<Action>)
    requires Inv(s) && LegalRun(s, run)
    ensures Inv(RunAll(s, run)) && |RunAll(s, run).workers| == |s.workers|
    decreases run
  {
    if run != [] {
      StepKeeps(s, run[0]);
      RunKeeps(Apply(s, run[0]), run[1..]);
    }
  }

  /** start returns only when every thread has registered its loop, each once. */
  lemma StartReturnsWhenAllRegistered(n: nat, run: seq<Action>)
    requires LegalRun(New(n), run) && RunAll(New(n), run).start.Returned?
    ensures var loops := RunAll(New(n), run).loops;
            |loops| == n && Distinct(loops) && forall i | 0 <= i < n :: i in loops
  {
    NewIsGood(n);
    RunKeeps(New(n), run);
    var loops := RunAll(New(n), run).loops;
    forall i: nat | i < n
      ensures i in loops
    {
      if i !in loops {
        CountBelow(loops + [i], n);
      }
    }
  }

  /** No wake-up is lost: while start has not returned some thread can go on without a spurious wake-up. */
  lemma NoLostWakeup(n: nat, run: seq<Action>)
    requires LegalRun(New(n), run) && !RunAll(New(n), run).start.Returned?
    ensures exists a: Action :: !a.SpuriousWake? && Enabled(RunAll(New(n), run), a)
  {
    NewIsGood(n);
    RunKeeps(New(n), run);
    var s := RunAll(New(n), run);
    match s.start
    case Spawning(k) => assert Enabled(s, if k < n then Spawn else AllSpawned);
    case Testing => assert Enabled(s, TestPredicate);
    case WantLock =>
      if s.lock.Worker? { HolderGoesOn(s); } else { assert Enabled(s, StarterLock); }
    case Asleep =>
      if s.lock.Worker? {
        HolderGoesOn(s);
      } else {
        assert forall i :: !At(s, i, Pushed);
        OneIsMissing(s.loops, n);
        var i: nat :| i < n && i !in s.loops;
        assert Enabled(s, WorkerLock(i));
      }
  }

  lemma HolderGoesOn(s: Barrier)
    requires Inv(s) && s.lock.Worker?
    ensures exists a: Action :: !a.SpuriousWake? && Enabled(s, a)
  {
    var i := s.lock.i;
    var a := match s.workers[i]
      case Inside => Push(i)
      case Pushed => Notify(i)
      case _ => WorkerUnlock(i);
    assert Enabled(s, a);
  }

  // ---------------------------------------------------------------------------
  // How long the barrier can take
  // ---------------------------------------------------------------------------

  function Left(pc: WorkerPc): nat {
    match pc
    case NotSpawned => 15
    case WantsLock => 12
    case Inside => 9
    case Pushed => 6
    case Notified => 3
    case Looping => 0
  }

  function LeftAll(ws: seq<WorkerPc>): nat {
    if ws == [] then 0 else Left(ws[0]) + LeftAll(ws[1..])
  }

  function Measure(s: Barrier): nat {
    LeftAll(s.workers) +
    match s.start
    case Spawning(_) => 3
    case WantLock => 2
    case Testing => 1
    case _ => 0
  }

  lemma {:induction false} LeftUpdate(ws: seq<WorkerPc>, i: nat, pc: WorkerPc)
    requires i < |ws|
    ensures LeftAll(ws[i := pc]) + Left(ws[i]) == LeftAll(ws) + Left(pc)
  {
    if i == 0 {
      assert ws[i := pc][1..] == ws[1..];
    } else {
      assert ws[i := pc][1..] == ws[1..][i - 1 := pc];
      LeftUpdate(ws[1..], i - 1, pc);
    }
  }

  /** Every step but a spurious wake-up comes nearer the end, a notify that wakes start included. */
  lemma StepComesNearer(s: Barrier, a: Action)
    requires Enabled(s, a) && !a.SpuriousWake?
    ensures Measure(Apply(s, a)) < Measure(s)
  {
    match a
    case Spawn => LeftUpdate(s.workers, s.start.k, WantsLock);
    case WorkerLock(i) => LeftUpdate(s.workers, i, Inside);
    case Push(i) => LeftUpdate(s.workers, i, Pushed);
    case Notify(i) => LeftUpdate(s.workers, i, Notified);
    case WorkerUnlock(i) => LeftUpdate(s.workers, i, Looping);
    case _ =>
  }

  /** So a run without spurious wake-ups is short, and where it cannot go on, start has returned. */
  lemma {:induction false} RunIsShort(s: Barrier, run: seq<Action>)
    requires LegalRun(s, run) && forall a | a in run :: !a.SpuriousWake?
    ensures |run| + Measure(RunAll(s, run)) <= Measure(s)
    decreases run
  {
    if run != [] {
      assert run[0] in run;
      StepComesNearer(s, run[0]);
      RunIsShort(Apply(s, run[0]), run[1..]);
    }
  }

  lemma {:induction false} AllNotSpawned(n: nat)
    ensures LeftAll(seq(n, i => NotSpawned)) == 15 * n
  {
    if n > 0 {
      var ws: seq<WorkerPc> := seq(n, i => NotSpawned);
      var shorter: seq<WorkerPc> := seq(n - 1, i => NotSpawned);
      assert ws[1..] == shorter;
      AllNotSpawned(n - 1);
    }
  }

  lemma BarrierTerminates(n: nat, run: seq<Action>)
    requires LegalRun(New(n), run) && forall a | a in run :: !a.SpuriousWake?
    ensures |run| <= 15 * n + 3
    ensures (forall a: Action | Enabled(RunAll(New(n), run), a) :: a.SpuriousWake?)
            ==> RunAll(New(n), run).start.Returned?
  {
    RunIsShort(New(n), run);
    AllNotSpawned(n);
    if !RunAll(New(n), run).start.Returned? { NoLostWakeup(n, run); }
  }

  /** The threads that pushed in a run, in order. */
  function PushedBy(run: seq<Action>): seq<nat> {
    if run == [] then [] else (if run[0].Push? then [run[0].i] else []) + PushedBy(run[1..])
  }

  /** loops_ is in the order of the pushes. */
  lemma {:induction false} LoopsInPushOrder(s: Barrier, run: seq<Action>)
    requires LegalRun(s, run)
    ensures RunAll(s, run).loops == s.loops + PushedBy(run)
    decreases run
  {
    if run != [] {
      var s1 := Apply(s, run[0]);
      assert s1.loops == s.loops + (if run[0].Push? then [run[0].i] else []);
      LoopsInPushOrder(s1, run[1..]);
    }
  }

  /** order is an order in which the threads may have registered their loops when start returns. */
  ghost predicate Registers(n: nat, order: seq<nat>) {
    exists run: seq<Action> ::
      LegalRun(New(n), run) && RunAll(New(n), run).start.Returned? && RunAll(New(n), run).loops == order
  }

  lemma RegistersAll(n: nat, order: seq<nat>)
    requires Registers(n, order)
    ensures |order| == n && Distinct(order)
    ensures (forall i | 0 <= i < n :: i in order) && forall k | 0 <= k < n :: order[k] < n
  {
    var run: seq<Action> :|
      LegalRun(New(n), run) && RunAll(New(n), run).start.Returned? && RunAll(New(n), run).loops == order;
    StartReturnsWhenAllRegistered(n, run);
    NewIsGood(n);
    RunKeeps(New(n), run);
    forall k | 0 <= k < n ensures order[k] < n { assert order[k] in order; }
  }

  lemma {:induction false} LegalAppend(s: Barrier, run: seq<Action>, a: Action)
    requires LegalRun(s, run) && Enabled(RunAll(s, run), a)
    ensures LegalRun(s, run + [a]) && RunAll(s, run + [a]) == Apply(RunAll(s, run), a)
    decreases run
  {
    if run == [] {
      assert run + [a] == [a] && [a][1..] == [];
      assert RunAll(Apply(s, a), []) == Apply(s, a);
    } else {
      assert (run + [a])[1..] == run[1..] + [a];
      LegalAppend(Apply(s, run[0]), run[1..], a);
    }
  }

  /** Whatever has happened, start can still return. */
  lemma {:induction false} StartCanReturn(n: nat, run: seq<Action>) returns (more: seq<Action>)
    requires LegalRun(New(n), run)
    ensures run <= more && LegalRun(New(n), more) && RunAll(New(n), more).start.Returned?
    ensures forall k | |run| <= k < |more| :: !more[k].SpuriousWake?
    decreases Measure(RunAll(New(n), run))
  {
    if RunAll(New(n), run).start.Returned? {
      more := run;
    } else {
      NoLostWakeup(n, run);
      var a: Action :| !a.SpuriousWake? && Enabled(RunAll(New(n), run), a);
      StepComesNearer(RunAll(New(n), run), a);
      LegalAppend(New(n), run, a);
      more := StartCanReturn(n, run + [a]);
    }
  }

  /** So some order is always possible. */
  lemma SomeOrderRegisters(n: nat)
    ensures exists order: seq<nat> :: Registers(n, order)
  {
    var run := StartCanReturn(n, []);
    assert Registers(n, RunAll(New(n), run).loops);
  }

  // ---------------------------------------------------------------------------
  // getNextLoop
  // ---------------------------------------------------------------------------

  function NextIndex(next: nat, n: nat): nat {
    if next + 1 >= n then 0 else next + 1
  }

  /** next_ after k calls. */
  function IndexAfter(next: nat, n: nat, k: nat): nat {
    if k == 0 then next else NextIndex(IndexAfter(next, n, k - 1), n)
  }

  /** at are the indices of so many calls in a row. */
  ghost predicate Successive(at: seq<nat>, next: nat, n: nat) {
    forall k | 0 <= k < |at| :: at[k] == IndexAfter(next, n, k)
  }

  /** floor(w / n) or ceil(w / n). */
  predicate Even(times: nat, w: nat, n: nat)
    requires n > 0
  {
    w / n <= times <= (w + n - 1) / n
  }

  /** Each of n loops is chosen equally often, up to one. */
  ghost predicate Fair(at: seq<nat>, n: nat)
    requires n > 0
  {
    forall i | 0 <= i < n :: Even(multiset(at)[i], |at|, n)
  }

  /** How often loop i is chosen in the next w calls. */
  function Times(next: nat, n: nat, w: nat, i: nat): nat {
    if w == 0 then 0 else Times(next, n, w - 1, i) + (if IndexAfter(next, n, w - 1) == i then 1 else 0)
  }

  class EventLoopPool<L> {
    const mainLoop: L
    var loops: seq<L>
    var next: nat

    ghost predicate Valid()
      reads this
    {
      if loops == [] then next == 0 else next < |loops|
    }

    constructor (mainLoop: L)
      ensures Valid() && this.mainLoop == mainLoop && loops == []
    {
      this.mainLoop := mainLoop;
      loops, next := [], 0;
    }

    method GetNextLoop() returns (loop: L)
      requires Valid()
      modifies this`next
      ensures Valid()
      ensures loops == [] ==> loop == mainLoop && next == old(next)
      ensures loops != [] ==> loop == loops[old(next)] && next == NextIndex(old(next), |loops|)
    {
      loop := mainLoop;
      if loops != [] {
        loop := loops[next];
        next := next + 1;
        if next >= |loops| {
          next := 0;
        }
      }
    }

    /** start: each thread pushes its loop, in the order in which the barrier let them. */
    method Start(threadLoops: seq<L>, order: seq<nat>)
      requires Valid() && loops == [] && Registers(|threadLoops|, order)
      modifies this`loops
      ensures Valid() && |loops| == |threadLoops| == |order|
      ensures Distinct(order) && forall i | 0 <= i < |threadLoops| :: i in order
      ensures forall k | 0 <= k < |order| :: order[k] < |threadLoops| && loops[k] == threadLoops[order[k]]
    {
      RegistersAll(|threadLoops|, order);
      var k := 0;
      while k < |order|
        invariant 0 <= k <= |order| && |loops| == k && next == 0
        invariant forall x | 0 <= x < k :: loops[x] == threadLoops[order[x]]
      {
        loops := loops + [threadLoops[order[k]]];
        k := k + 1;
      }
    }

    /** w calls in a row: call k returns the loop at[k], and each loop is returned floor(w / n) or ceil(w / n) times. */
    method GetLoops(w: nat) returns (chosen: seq<L>, ghost at: seq<nat>)
      requires Valid() && loops != []
      modifies this`next
      ensures Valid() && |chosen| == |at| == w && next == IndexAfter(old(next), |loops|, w)
      ensures Successive(at, old(next), |loops|)
      ensures forall k | 0 <= k < w :: at[k] < |loops| && chosen[k] == loops[at[k]]
      ensures Fair(at, |loops|)
    {
      chosen, at := [], [];
      var k := 0;
      while k < w
        invariant 0 <= k <= w && Valid() && |chosen| == |at| == k && next == IndexAfter(old(next), |loops|, k)
        invariant Successive(at, old(next), |loops|)
        invariant forall x | 0 <= x < k :: at[x] < |loops| && chosen[x] == loops[at[x]]
      {
        at := at + [next];
        var loop := GetNextLoop();
        chosen := chosen + [loop];
        k := k + 1;
      }
      FairShares(old(next), |loops|, at);
    }
  }

  /** Counting from 0, call k chooses loop k mod n. */
  lemma RoundRobin(n: nat, k: nat)
    requires n > 0
    ensures IndexAfter(0, n, k) == k % n
  {
    var q := Rounds(n, k);
    Quotient(k, n, q, IndexAfter(0, n, k));
  }

  /** After k calls from 0 the index has gone round q times. */
  lemma {:induction false} Rounds(n: nat, k: nat) returns (q: nat)
    requires n > 0
    ensures IndexAfter(0, n, k) < n && k == q * n + IndexAfter(0, n, k)
  {
    if k == 0 {
      q := 0;
    } else {
      q := Rounds(n, k - 1);
      if IndexAfter(0, n, k) == 0 {
        assert (q + 1) * n == q * n + n;
        q := q + 1;
      }
    }
  }

  lemma Quotient(x: nat, n: nat, q: nat, r: nat)
    requires r < n && x == q * n + r
    ensures x / n == q && x % n == r
  {
    var q', r' := x / n, x % n;
    assert x == q' * n + r';
    if q < q' {
      MultipleGap(q, q', n);
    } else if q' < q {
      MultipleGap(q', q, n);
    }
  }

  lemma MultipleGap(q: nat, q': nat, n: nat)
    requires q < q'
    ensures q' * n >= q * n + n
  {
    var d := q' - q;
    assert q' * n == q * n + d * n;
    assert d * n == n + (d - 1) * n;
  }

  /** Calls before loop i is next. */
  function Distance(next: nat, n: nat, i: nat): nat
    requires next < n && i < n
  {
    if next <= i then i - next else i + n - next
  }

  lemma {:induction false} IndexHead(next: nat, n: nat, k: nat)
    requires k > 0
    ensures IndexAfter(NextIndex(next, n), n, k - 1) == IndexAfter(next, n, k)
  {
    if k > 1 { IndexHead(next, n, k - 1); }
  }

  /** The first call and the others. */
  lemma {:induction false} TimesHead(next: nat, n: nat, w: nat, i: nat)
    requires w > 0
    ensures Times(next, n, w, i) == (if next == i then 1 else 0) + Times(NextIndex(next, n), n, w - 1, i)
  {
    if w > 1 {
      TimesHead(next, n, w - 1, i);
      IndexHead(next, n, w - 1);
    } else {
      assert Times(next, n, 0, i) == 0 && IndexAfter(next, n, 0) == next;
    }
  }

  lemma {:induction false} TimesClosedForm(next: nat, n: nat, w: nat, i: nat)
    requires next < n && i < n
    ensures var d := Distance(next, n, i);
            Times(next, n, w, i) == if w <= d then 0 else 1 + (w - 1 - d) / n
    decreases w
  {
    if w > 0 {
      var next' := NextIndex(next, n);
      TimesHead(next, n, w, i);
      TimesClosedForm(next', n, w - 1, i);
      if next == i {
        assert Distance(next', n, i) == n - 1;
        if w - 1 > n - 1 {
          OneTurnMore(w - 1 - n, n);
        } else {
          Quotient(w - 1, n, 0, w - 1);
        }
      } else {
        assert Distance(next', n, i) == Distance(next, n, i) - 1;
      }
    }
  }

  lemma OneTurnMore(x: nat, n: nat)
    requires n > 0
    ensures (x + n) / n == x / n + 1
  {
    var q, r := x / n, x % n;
    assert x == q * n + r;
    assert x + n == (q + 1) * n + r;
    Quotient(x + n, n, q + 1, r);
  }

  lemma DivideMonotone(x: nat, y: nat, n: nat)
    requires n > 0 && x <= y
    ensures x / n <= y / n
  {
    var q, q' := x / n, y / n;
    assert x == q * n + x % n && y == q' * n + y % n;
    if q' < q { MultipleGap(q', q, n); }
  }

  /** Over any w calls in a row each of n loops is chosen floor(w / n) or ceil(w / n) times. */
  lemma FairShare(next: nat, n: nat, w: nat, i: nat)
    requires next < n && i < n
    ensures Even(Times(next, n, w, i), w, n)
  {
    var d := Distance(next, n, i);
    TimesClosedForm(next, n, w, i);
    if w <= d {
      Quotient(w, n, 0, w);
    } else {
      OneTurnMore(w - 1, n);
      DivideMonotone(w - 1 - d, w - 1, n);
      if w >= n {
        OneTurnMore(w - n, n);
        DivideMonotone(w - n, w - 1 - d, n);
      } else {
        Quotient(w, n, 0, w);
      }
    }
  }

  lemma {:induction false} TimesCounts(next: nat, n: nat, at: seq<nat>, i: nat)
    requires Successive(at, next, n)
    ensures multiset(at)[i] == Times(next, n, |at|, i)
    decreases |at|
  {
    if at != [] {
      var m := |at| - 1;
      TimesCounts(next, n, at[..m], i);
      assert at == at[..m] + [at[m]];
    }
  }

  /** The same of the indices themselves. */
  lemma FairShares(next: nat, n: nat, at: seq<nat>)
    requires next < n && Successive(at, next, n)
    ensures Fair(at, n)
  {
    forall i | 0 <= i < n
      ensures Even(multiset(at)[i], |at|, n)
    {
      TimesCounts(next, n, at, i);
      FairShare(next, n, |at|, i);
    }
  }
}
