/** The connection pool of TcpServer (potato/net/TcpServer.cpp) as interleaved steps: one borrowing thread,
    any number of returning loop threads, one spin lock (SpinLock of potato/thread/Mutex.h). */
module ConnectionPool {

  const BATCH: nat := 200

  /** A pool object: its index_, and whether loop_, socket_ and ioEvent_ are set. */
  datatype Cell = Cell(index: nat, bound: bool)

  datatype Holder = Borrower | Returner(i: nat)

  datatype Lock = Clear | Set(holder: Holder)

  /** Where newConnection is. */
  datatype BorrowPc =
    | Idle
    | WantFirst          // saw availIndex_ empty, without the lock
    | InFirst            // first critical section
    | LeaveFirst
    | WantSecond
    | InSecond           // second critical section
    | LeaveSecond(i: nat)
    | Picked(i: nat)     // holds object i, not yet bound

  /** Where the thread that returns an object is: reset is done, index_ is not back yet; or it is. */
  datatype ReturnPc = WantReturn | InReturn | LeaveReturn

  datatype Pool = Pool(lock: Lock, avail: set<nat>, cells: seq<Cell>, pc: BorrowPc, back: map<nat, ReturnPc>)

  datatype Action =
    | TestEmpty | LockFirst | TestAndGrow | UnlockFirst
    | LockSecond | Take(i: nat) | UnlockSecond | BindPicked
    | EndSession(i: nat) | LockReturn(i: nat) | Insert(i: nat) | UnlockReturn(i: nat)
    | Spin

  function Fresh(from: nat, n: nat): (cs: seq<Cell>)
    ensures |cs| == n && forall k | 0 <= k < n :: cs[k] == Cell(from + k, false)
  {
    seq(n, k requires 0 <= k => Cell(from + k, false))
  }

  function Range(from: nat, n: nat): (r: set<nat>)
    ensures forall i: nat :: i in r <==> from <= i < from + n
  {
    if n == 0 then {} else Range(from, n - 1) + {from + n - 1}
  }

  const START: Pool := Pool(Clear, Range(0, BATCH), Fresh(0, BATCH), Idle, map[])

  predicate Enabled(s: Pool, a: Action) {
    match a
    case TestEmpty => s.pc.Idle?
    case LockFirst => s.pc.WantFirst? && s.lock.Clear?
    case TestAndGrow => s.pc.InFirst?
    case UnlockFirst => s.pc.LeaveFirst?
    case LockSecond => s.pc.WantSecond? && s.lock.Clear?
    case Take(i) => s.pc.InSecond? && i in s.avail
    case UnlockSecond => s.pc.LeaveSecond?
    case BindPicked => s.pc.Picked? && s.pc.i < |s.cells|
    case EndSession(i) => i < |s.cells| && s.cells[i].bound
    case LockReturn(i) => i in s.back && s.back[i].WantReturn? && s.lock.Clear?
    case Insert(i) => i in s.back && s.back[i].InReturn?
    case UnlockReturn(i) => i in s.back && s.back[i].LeaveReturn?
    case Spin => s.lock.Set?
  }

  function Apply(s: Pool, a: Action): Pool
    requires Enabled(s, a)
  {
    match a
    case TestEmpty => s.(pc := if s.avail == {} then WantFirst else WantSecond)
    case LockFirst => s.(pc := InFirst, lock := Set(Borrower))
    case TestAndGrow =>
      if s.avail == {} then
        s.(pc := LeaveFirst, cells := s.cells + Fresh(|s.cells|, BATCH), avail := Range(|s.cells|, BATCH))
      else s.(pc := LeaveFirst)
    case UnlockFirst => s.(pc := WantSecond, lock := Clear)
    case LockSecond => s.(pc := InSecond, lock := Set(Borrower))
    case Take(i) => s.(pc := LeaveSecond(i), avail := s.avail - {i})
    case UnlockSecond => s.(pc := Picked(s.pc.i), lock := Clear)
    case BindPicked => s.(pc := Idle, cells := s.cells[s.pc.i := s.cells[s.pc.i].(bound := true)])
    case EndSession(i) =>
      // reset, then returnConnection reads index_
      s.(cells := s.cells[i := s.cells[i].(bound := false)], back := s.back[s.cells[i].index := WantReturn])
    case LockReturn(i) => s.(back := s.back[i := InReturn], lock := Set(Returner(i)))
    case Insert(i) => s.(back := s.back[i := LeaveReturn], avail := s.avail + {i})
    case UnlockReturn(i) => s.(back := s.back - {i}, lock := Clear)
    case Spin => s
  }

  predicate LegalRun(s: Pool, run: seq<Action>)
    decreases run
  {
    run == [] || (Enabled(s, run[0]) && LegalRun(Apply(s, run[0]), run[1..]))
  }

  function RunAll(s: Pool, run: seq<Action>): Pool
    requires LegalRun(s, run)
    decreases run
  {
    if run == [] then s else RunAll(Apply(s, run[0]), run[1..])
  }

  // ---------------------------------------------------------------------------
  // The invariant
  // ---------------------------------------------------------------------------

  /** In the hands of the borrower. */
  predicate Held(s: Pool, i: nat) {
    (s.pc.LeaveSecond? || s.pc.Picked?) && s.pc.i == i
  }

  /** Reset, and on the way back. */
  predicate Returning(s: Pool, i: nat) {
    i in s.back && !s.back[i].LeaveReturn?
  }

  /** Each object is in exactly one of the four places, and only a bound object has its pointers set. */
  predicate Placed(s: Pool, i: nat)
    requires i < |s.cells|
  {
    && s.cells[i].index == i
    && (s.cells[i].bound ==> i !in s.avail && !Held(s, i) && i !in s.back)
    && (i in s.avail ==> !Held(s, i) && !Returning(s, i))
    && (Held(s, i) ==> i !in s.back)
    && (s.cells[i].bound || i in s.avail || Held(s, i) || Returning(s, i))
  }

  predicate Exclusive(s: Pool) {
    && (s.lock == Set(Borrower) <==> s.pc.InFirst? || s.pc.LeaveFirst? || s.pc.InSecond? || s.pc.LeaveSecond?)
    && (forall i | i in s.back :: !s.back[i].WantReturn? <==> s.lock == Set(Returner(i)))
    && (s.lock.Set? && s.lock.holder.Returner? ==> s.lock.holder.i in s.back)
  }

  predicate Inv(s: Pool) {
    && Exclusive(s)
    && (forall i | i in s.avail :: i < |s.cells|)
    && (forall i | i in s.back :: i < |s.cells|)
    && (s.pc.LeaveSecond? || s.pc.Picked? ==> s.pc.i < |s.cells|)
    && (forall i | 0 <= i < |s.cells| :: Placed(s, i))
    && (forall i | i in s.back && s.back[i].LeaveReturn? :: i in s.avail)
    && (s.pc.LeaveFirst? || s.pc.WantSecond? || s.pc.InSecond? ==> s.avail != {})
  }

  lemma BorrowStepKeeps(s: Pool, a: Action)
    requires Inv(s) && Enabled(s, a)
    requires a.TestEmpty? || a.LockFirst? || a.UnlockFirst? || a.LockSecond? || a.Take? || a.UnlockSecond? || a.Spin?
    ensures Inv(Apply(s, a))
  {
    var s' := Apply(s, a);
    forall i | 0 <= i < |s'.cells|
      ensures Placed(s', i)
    {
      assert Placed(s, i);
    }
  }

  lemma GrowKeeps(s: Pool)
    requires Inv(s) && Enabled(s, TestAndGrow)
    ensures Inv(Apply(s, TestAndGrow))
  {
    var s' := Apply(s, TestAndGrow);
    if s.avail == {} {
      assert |s.cells| in s'.avail;
    }
    forall i | 0 <= i < |s'.cells|
      ensures Placed(s', i)
    {
      if i < |s.cells| { assert Placed(s, i); }
    }
  }

  lemma BindKeeps(s: Pool)
    requires Inv(s) && Enabled(s, BindPicked)
    ensures Inv(Apply(s, BindPicked)) && !s.cells[s.pc.i].bound
  {
    var s' := Apply(s, BindPicked);
    assert Placed(s, s.pc.i);
    forall i | 0 <= i < |s'.cells|
      ensures Placed(s', i)
    {
      assert Placed(s, i);
    }
  }

  lemma ReturnStepKeeps(s: Pool, a: Action)
    requires Inv(s) && Enabled(s, a)
    requires a.EndSession? || a.LockReturn? || a.Insert? || a.UnlockReturn?
    ensures Inv(Apply(s, a))
  {
    var s' := Apply(s, a);
    if a.EndSession? { assert Placed(s, a.i); }
    if a.Insert? { assert a.i in s'.avail; }
    forall i | 0 <= i < |s'.cells|
      ensures Placed(s', i)
    {
      assert Placed(s, i);
    }
  }

  lemma StepKeeps(s: Pool, a: Action)
    requires Inv(s) && Enabled(s, a)
    ensures Inv(Apply(s, a))
  {
    if a.TestAndGrow? { GrowKeeps(s); }
    else if a.BindPicked? { BindKeeps(s); }
    else if a.EndSession? || a.LockReturn? || a.Insert? || a.UnlockReturn? { ReturnStepKeeps(s, a); }
    else { BorrowStepKeeps(s, a); }
  }

  lemma {:induction false} RunKeeps(s: Pool, run: seq<Action>)
    requires Inv(s) && LegalRun(s, run)
    ensures Inv(RunAll(s, run))
    decreases run
  {
    if run != [] {
      StepKeeps(s, run[0]);
      RunKeeps(Apply(s, run[0]), run[1..]);
    }
  }

  lemma StartIsGood()
    ensures Inv(START) && |START.cells| == BATCH
  {}

  // ---------------------------------------------------------------------------
  // Theorems about all runs
  // ---------------------------------------------------------------------------

  function Free(s: Pool): set<nat> { s.avail }

  /** Objects taken out and not yet put back: in the borrower's hands, bound, or on their way back. */
  function Lent(s: Pool): set<nat> {
    set i | 0 <= i < |s.cells| && (s.cells[i].bound || Held(s, i) || Returning(s, i))
  }

  /** The spin lock: at most one thread is between lock and unlock, and the flag is set exactly while one is. */
  lemma SpinLockExcludes(run: seq<Action>)
    requires LegalRun(START, run)
    ensures var s := RunAll(START, run);
            var borrowing := s.pc.InFirst? || s.pc.LeaveFirst? || s.pc.InSecond? || s.pc.LeaveSecond?;
            && (forall i | i in s.back && !s.back[i].WantReturn? :: !borrowing)
            && (forall i, j | i in s.back && j in s.back && !s.back[i].WantReturn? && !s.back[j].WantReturn? :: i == j)
            && (s.lock.Set? <==> borrowing || exists i :: i in s.back && !s.back[i].WantReturn?)
  {
    StartIsGood();
    RunKeeps(START, run);
  }

  /** Free and lent indices partition the pool, object i has index_ i, and a free object has null pointers. */
  lemma PoolPartition(run: seq<Action>)
    requires LegalRun(START, run)
    ensures var s := RunAll(START, run);
            && Free(s) + Lent(s) == Range(0, |s.cells|) && Free(s) !! Lent(s)
            && (forall i | 0 <= i < |s.cells| :: s.cells[i].index == i)
            && (forall i | i in Free(s) :: i < |s.cells| && !s.cells[i].bound)
  {
    StartIsGood();
    RunKeeps(START, run);
    var s := RunAll(START, run);
    forall i | 0 <= i < |s.cells|
      ensures s.cells[i].index == i && (i in Free(s) <==> i !in Lent(s)) && (i in Free(s) ==> !s.cells[i].bound)
    {
      assert Placed(s, i);
    }
  }

  /** In the second critical section the free set is never empty, although it was tested without the lock or
      before the lock was released; and only the borrower is in a critical section then. */
  lemma SecondSectionFindsOne(run: seq<Action>)
    requires LegalRun(START, run) && RunAll(START, run).pc.InSecond?
    ensures var s := RunAll(START, run);
            && (exists i :: i in s.avail && Enabled(s, Take(i)))
            && (forall i | i in s.back :: s.back[i].WantReturn?)
  {
    StartIsGood();
    RunKeeps(START, run);
    var s := RunAll(START, run);
    var i :| i in s.avail;
    assert Enabled(s, Take(i));
  }

  /** No object is lent twice: what the borrower takes is not lent, and what it binds has null pointers. */
  lemma NotLentTwice(run: seq<Action>, a: Action)
    requires LegalRun(START, run) && Enabled(RunAll(START, run), a)
    ensures var s := RunAll(START, run);
            && (a.Take? ==> a.i !in Lent(s) && a.i in Lent(Apply(s, a)))
            && (a.BindPicked? ==> !s.cells[s.pc.i].bound)
            && (a.EndSession? ==> s.cells[a.i].index == a.i && a.i !in s.avail && a.i !in s.back)
            && (a.Insert? ==> a.i !in s.avail)
  {
    StartIsGood();
    RunKeeps(START, run);
    var s := RunAll(START, run);
    if a.Take? || a.EndSession? || a.Insert? { assert Placed(s, a.i); }
    if a.BindPicked? { BindKeeps(s); }
  }

  /** The borrower enters the first critical section only if it saw the free set empty without the lock. */
  lemma FirstSectionAfterEmpty(s: Pool, a: Action)
    requires Enabled(s, a) && !s.pc.WantFirst? && !s.pc.InFirst?
    ensures Apply(s, a).pc.WantFirst? ==> a.TestEmpty? && s.avail == {}
    ensures !Apply(s, a).pc.InFirst?
  {}

  // ---------------------------------------------------------------------------
  // What borrowing and returning do when nothing intervenes
  // ---------------------------------------------------------------------------

  /** The pool after one step, and the run that led there. */
  lemma RunStep(s: Pool, run: seq<Action>, a: Action) returns (run': seq<Action>)
    requires LegalRun(s, run) && Enabled(RunAll(s, run), a)
    ensures LegalRun(s, run') && RunAll(s, run') == Apply(RunAll(s, run), a)
  {
    run' := run + [a];
    LegalAppend(s, run, a);
  }

  lemma {:induction false} LegalAppend(s: Pool, run: seq<Action>, a: Action)
    requires LegalRun(s, run) && Enabled(RunAll(s, run), a)
    ensures LegalRun(s, run + [a]) && RunAll(s, run + [a]) == Apply(RunAll(s, run), a)
    decreases run
  {
    if run == [] {
      assert run + [a] == [a] && [a][1..] == [];
      assert RunAll(Apply(s, a), []) == Apply(s, a);
    } else {
      assert (run + [a])[1..] == run[1..] + [a];
      LegalAppend(Apply(s, run[0]), run[1..], a);
    }
  }

  /** The second section, after any run: it takes any free object, and this object is then bound. */
  lemma TakeAndBind(s: Pool, before: seq<Action>, i: nat) returns (run: seq<Action>)
    requires LegalRun(s, before)
    requires var p := RunAll(s, before); p.pc.WantSecond? && p.lock.Clear? && i in p.avail && i < |p.cells|
    ensures LegalRun(s, run)
    ensures var p := RunAll(s, before);
            RunAll(s, run) == p.(pc := Idle, avail := p.avail - {i},
                                 cells := p.cells[i := Cell(p.cells[i].index, true)])
  {
    run := RunStep(s, before, LockSecond);
    run := RunStep(s, run, Take(i));
    run := RunStep(s, run, UnlockSecond);
    run := RunStep(s, run, BindPicked);
  }

  /** With a free object: any of them may be taken, and nothing else changes. */
  lemma BorrowWhenFree(s: Pool, i: nat) returns (run: seq<Action>)
    requires Inv(s) && s.pc.Idle? && s.lock.Clear? && i in s.avail
    ensures LegalRun(s, run)
    ensures RunAll(s, run) == s.(avail := s.avail - {i}, cells := s.cells[i := Cell(i, true)])
  {
    assert Placed(s, i);
    run := RunStep(s, [], TestEmpty);
    run := TakeAndBind(s, run, i);
  }

  /** With none: the pool grows by one batch, and one of the new objects is taken. */
  lemma BorrowWhenEmpty(s: Pool) returns (run: seq<Action>)
    requires Inv(s) && s.pc.Idle? && s.lock.Clear? && s.avail == {}
    ensures LegalRun(s, run)
    ensures var n := |s.cells|;
            && RunAll(s, run).avail == Range(n, BATCH) - {n} && RunAll(s, run).pc.Idle? && RunAll(s, run).lock.Clear?
            && RunAll(s, run).cells == (s.cells + Fresh(n, BATCH))[n := Cell(n, true)]
  {
    var n := |s.cells|;
    run := RunStep(s, [], TestEmpty);
    run := RunStep(s, run, LockFirst);
    run := RunStep(s, run, TestAndGrow);
    run := RunStep(s, run, UnlockFirst);
    run := TakeAndBind(s, run, n);
  }

  /** A bound object whose session ends: it is free again, and nothing else changes. */
  lemma EndAndReturn(s: Pool, i: nat) returns (run: seq<Action>)
    requires Inv(s) && s.lock.Clear? && i < |s.cells| && s.cells[i].bound
    ensures LegalRun(s, run)
    ensures RunAll(s, run) == s.(avail := s.avail + {i}, cells := s.cells[i := Cell(i, false)])
  {
    assert Placed(s, i);
    run := RunStep(s, [], EndSession(i));
    run := RunStep(s, run, LockReturn(i));
    run := RunStep(s, run, Insert(i));
    run := RunStep(s, run, UnlockReturn(i));
    assert s.back[i := LeaveReturn] - {i} == s.back;
  }

  /** The lock never keeps anyone for ever: whoever holds it can go on. */
  lemma HolderGoesOn(s: Pool)
    requires Inv(s) && s.lock.Set?
    ensures exists a: Action :: Enabled(s, a) && !a.Spin? && !a.TestEmpty? && !a.BindPicked? && !a.EndSession?
  {
    match s.lock.holder
    case Returner(i) => assert Enabled(s, if s.back[i].InReturn? then Insert(i) else UnlockReturn(i));
    case Borrower =>
      var a :=
        if s.pc.InFirst? then TestAndGrow
        else if s.pc.LeaveFirst? then UnlockFirst
        else if s.pc.InSecond? then (var i :| i in s.avail; Take(i))
        else UnlockSecond;
      assert Enabled(s, a);
  }

  // ---------------------------------------------------------------------------
  // The size of the pool
  // ---------------------------------------------------------------------------

  function Max(a: nat, b: nat): nat { if a < b then b else a }

  /** The most objects ever lent along a run, its two ends included. */
  function PeakLent(s: Pool, run: seq<Action>): nat
    requires LegalRun(s, run)
    decreases run
  {
    if run == [] then |Lent(s)| else Max(|Lent(s)|, PeakLent(Apply(s, run[0]), run[1..]))
  }

  lemma {:induction false} RangeSize(from: nat, n: nat)
    ensures |Range(from, n)| == n
  {
    if n > 0 { RangeSize(from, n - 1); }
  }

  /** The pool grows only when every object is lent. */
  lemma GrowthNeedsAllLent(s: Pool, a: Action)
    requires Inv(s) && Enabled(s, a)
    ensures |Apply(s, a).cells| == |s.cells|
            || (|Apply(s, a).cells| == |s.cells| + BATCH && |Lent(s)| == |s.cells|)
  {
    if a.TestAndGrow? && s.avail == {} {
      forall i | 0 <= i < |s.cells| ensures i in Lent(s) { assert Placed(s, i); }
      assert Lent(s) == Range(0, |s.cells|);
      RangeSize(0, |s.cells|);
    }
  }

  lemma {:induction false} SizeFrom(s: Pool, size: nat, run: seq<Action>)
    requires Inv(s) && LegalRun(s, run) && |s.cells| <= size
    ensures |RunAll(s, run).cells| <= Max(size, PeakLent(s, run) + BATCH)
    decreases run
  {
    if run != [] {
      GrowthNeedsAllLent(s, run[0]);
      StepKeeps(s, run[0]);
      SizeFrom(Apply(s, run[0]), Max(size, |Apply(s, run[0]).cells|), run[1..]);
    }
  }

  lemma SizeFromSmall(s: Pool, run: seq<Action>)
    requires Inv(s) && LegalRun(s, run) && |s.cells| <= BATCH
    ensures |RunAll(s, run).cells| <= PeakLent(s, run) + BATCH
  {
    SizeFrom(s, BATCH, run);
  }

  /** The pool never holds more than one batch beyond the most objects that were ever lent at once. */
  lemma PoolSizeBound(run: seq<Action>)
    requires LegalRun(START, run)
    ensures |RunAll(START, run).cells| <= PeakLent(START, run) + BATCH
  {
    StartIsGood();
    SizeFromSmall(START, run);
  }
}
