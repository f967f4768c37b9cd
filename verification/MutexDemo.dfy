/** The threads of cmd_mutexdemo as threads of the whole system, with ticks, other threads and
    processes around them: every run of the kernel is, for them, a run of Counter, and the kernel
    brings them to its end. */
module MutexDemo {
  import opened Sched
  import opened Sync
  import opened System
  import Safety
  import Fairness
  import D = Demo
  import C = Counter

  /** The mutex of the demo is the first; worker t is the thread in slot base + t. */
  const MUTEX := 0

  datatype World = World(sys: Sys, prog: C.State, base: nat)

  function ShiftPtr(p: Ptr, base: nat): Ptr {
    if p.To? then To(base + p.slot) else Null
  }

  predicate SameMutex(m: Mutex, p: Mutex, base: nat) {
    m.locked == p.locked && m.owner == ShiftPtr(p.owner, base) && m.queue == D.Shift(p.queue, base)
  }

  predicate IsWorker(w: World, t: Ptr) {
    t.To? && w.base <= t.slot < w.base + |w.prog.pcs|
  }

  predicate Unfinished(p: C.State, t: nat) {
    t < |p.pcs| && p.pcs[t] != C.Done
  }

  predicate Waiting(p: C.State, t: nat) {
    t in p.mutex.queue
  }

  /** The program's mutex is the kernel's; who waits for it is BLOCKED and nobody else is; and the
      thread of an unfinished worker lives. */
  ghost predicate Coupled(w: World, rounds: nat) {
    && Inv(w.sys) && C.Inv(w.prog, rounds)
    && |w.sys.mutexes| >= 1 && w.base + |w.prog.pcs| <= NT(w.sys.k)
    && SameMutex(w.sys.mutexes[MUTEX], w.prog.mutex, w.base)
    && (forall t: nat :: t < |w.prog.pcs| ==> (Waiting(w.prog, t) <==> Blocked(w.sys.k, w.base + t)))
    && (forall t: nat :: Unfinished(w.prog, t) ==> !Safety.Dead(w.sys.k, w.base + t))
  }

  /** The kernel call a worker's next statement makes, if any. */
  function CallOf(pc: C.Pc, esp: nat): D.MaybeEvent {
    match pc
    case AtLock(_) => D.Does(CallLock(MUTEX, esp))
    case AtUnlock(_) => D.Does(CallUnlock(MUTEX))
    case _ => D.NoEvent
  }

  // ---- Mutexes side by side ------------------------------------------------------------

  lemma ShiftLock(m: Mutex, p: Mutex, base: nat, t: nat)
    requires SameMutex(m, p, base)
    ensures SameMutex(Lock(m, To(base + t)).0, Lock(p, To(t)).0, base)
    ensures Lock(m, To(base + t)).1 == Lock(p, To(t)).1
  {
    assert D.Shift(p.queue + [t], base) == D.Shift(p.queue, base) + [base + t];
  }

  lemma ShiftUnlock(m: Mutex, p: Mutex, base: nat, t: nat)
    requires SameMutex(m, p, base)
    ensures SameMutex(Unlock(m, To(base + t)).0, Unlock(p, To(t)).0, base)
    ensures Unlock(m, To(base + t)).1 == ShiftPtr(Unlock(p, To(t)).1, base)
  {
    if p.queue != [] {
      assert D.Shift(p.queue, base)[0] == p.queue[0] + base;
      assert D.Shift(p.queue[1..], base) == D.Shift(p.queue, base)[1..];
    }
  }

  // ---- A worker's statement ------------------------------------------------------------

  /** The kernel never runs a worker that waits. */
  lemma RunningCanStep(w: World, t: nat, rounds: nat)
    requires Coupled(w, rounds) && Unfinished(w.prog, t) && w.sys.k.thread == To(w.base + t)
    ensures C.CanStep(w.prog, t)
  {
    hide Tables;
    hide QueueInv;
    hide C.Inv;
    RunningNotWaiting(w.sys, Idle);
    assert !Blocked(w.sys.k, w.base + t);
    assert !Waiting(w.prog, t);
  }

  lemma LockBlocked(s: Sys, m: nat, esp: nat, t: nat)
    requires Inv(s) && m < |s.mutexes| && Enabled(s, CallLock(m, esp))
    ensures var s1 := Step(s, CallLock(m, esp));
      && NT(s.k) == NT(s1.k)
      && (Blocked(s1.k, t) <==> Blocked(s.k, t) || (Lock(s.mutexes[m], s.k.thread).1 && s.k.thread == To(t)))
  {
    hide Tables;
    hide Lock;
    hide Irq;
    InvTables(s);
    LockShape(s, m);
    if Lock(s.mutexes[m], s.k.thread).1 {
      LockReady(s, m);
      IrqStates(LockBody(s, m).0.k, esp);
      assert NT(LockBody(s, m).0.k) == NT(s.k);
    }
  }

  lemma UnlockBlocked(s: Sys, m: nat, t: nat)
    requires Inv(s) && m < |s.mutexes| && Enabled(s, CallUnlock(m))
    ensures var s1 := Step(s, CallUnlock(m));
      && NT(s.k) == NT(s1.k)
      && (Blocked(s1.k, t) <==> Blocked(s.k, t) && Unlock(s.mutexes[m], s.k.thread).1 != To(t))
  {
    hide Tables;
    hide Unlock;
    InvTables(s);
    UnlockShape(s, m);
  }

  /** The running worker executes its next statement. */
  function WorkerStep(w: World, t: nat, esp: nat, rounds: nat): World
    requires Sized(w.sys) && Tables(w.sys.k) && C.CanStep(w.prog, t)
    requires CallOf(w.prog.pcs[t], esp).Does? ==> Enabled(w.sys, CallOf(w.prog.pcs[t], esp).e)
  {
    var prog := C.Step(w.prog, t, rounds);
    match CallOf(w.prog.pcs[t], esp)
    case NoEvent => w.(prog := prog)
    case Does(e) => World(Step(w.sys, e), prog, w.base)
  }

  lemma WorkerEnabled(w: World, t: nat, esp: nat, rounds: nat)
    requires Coupled(w, rounds) && t < |w.prog.pcs| && w.sys.k.thread == To(w.base + t)
    ensures Sized(w.sys) && Tables(w.sys.k) && w.sys.k.kind != Boot
    ensures CallOf(w.prog.pcs[t], esp).Does? ==> Enabled(w.sys, CallOf(w.prog.pcs[t], esp).e)
  {
    hide Inv;
    hide Tables;
    hide C.Inv;
    InvTables(w.sys);
    CurrentInRange(w.sys.k);
  }

  /** The program's own waiters follow its step. */
  lemma ProgWaits(p: C.State, t: nat, u: nat, rounds: nat)
    requires MutexOk(p.mutex) && C.CanStep(p, t) && u < |p.pcs|
    ensures var p1 := C.Step(p, t, rounds); var pc := p.pcs[t];
      && |p1.pcs| == |p.pcs|
      && (Unfinished(p1, u) ==> Unfinished(p, u))
      && p1.mutex == (if pc.AtLock? then Lock(p.mutex, To(t)).0 else if pc.AtUnlock? then Unlock(p.mutex, To(t)).0 else p.mutex)
      && (pc.AtLock? ==> (Waiting(p1, u) <==> Waiting(p, u) || (u == t && Lock(p.mutex, To(t)).1)))
      && (pc.AtUnlock? ==> (Waiting(p1, u) <==> Waiting(p, u) && Unlock(p.mutex, To(t)).1 != To(u)))
  {
    hide Lock;
    hide Unlock;
    LockOk(p.mutex, To(t));
    UnlockOk(p.mutex, To(t));
  }

  /** After its step: who waits is BLOCKED. */
  lemma WaitersBlocked(w: World, t: nat, esp: nat, rounds: nat, u: nat)
    requires Coupled(w, rounds) && C.CanStep(w.prog, t) && w.sys.k.thread == To(w.base + t)
    requires Sized(w.sys) && Tables(w.sys.k)
    requires CallOf(w.prog.pcs[t], esp).Does? ==> Enabled(w.sys, CallOf(w.prog.pcs[t], esp).e)
    requires u < |w.prog.pcs|
    ensures Waiting(C.Step(w.prog, t, rounds), u) <==> Blocked(WorkerStep(w, t, esp, rounds).sys.k, w.base + u)
  {
    hide Tables;
    hide Inv;
    hide C.Inv;
    hide C.Step;
    hide Lock;
    hide Unlock;
    hide Step;
    hide MutexOk;
    hide Waiting;
    hide Safety.Dead;
    var p, pc := w.prog, w.prog.pcs[t];
    ProgMutexOk(p, rounds);
    ProgWaits(p, t, u, rounds);
    if pc.AtLock? {
      ShiftLock(w.sys.mutexes[MUTEX], p.mutex, w.base, t);
      LockBlocked(w.sys, MUTEX, esp, w.base + u);
    } else if pc.AtUnlock? {
      ShiftUnlock(w.sys.mutexes[MUTEX], p.mutex, w.base, t);
      UnlockBlocked(w.sys, MUTEX, w.base + u);
    } else {
      SameWaiting(p, C.Step(p, t, rounds), u);
    }
  }

  /** A statement kills nobody. */
  lemma WorkersLive(w: World, t: nat, esp: nat, rounds: nat, u: nat)
    requires Coupled(w, rounds) && C.CanStep(w.prog, t) && w.sys.k.thread == To(w.base + t)
    requires Sized(w.sys) && Tables(w.sys.k)
    requires CallOf(w.prog.pcs[t], esp).Does? ==> Enabled(w.sys, CallOf(w.prog.pcs[t], esp).e)
    requires Unfinished(C.Step(w.prog, t, rounds), u)
    ensures !Safety.Dead(WorkerStep(w, t, esp, rounds).sys.k, w.base + u)
  {
    hide Tables;
    hide Inv;
    hide C.Inv;
    hide C.Step;
    hide Step;
    hide MutexOk;
    hide Waiting;
    hide Safety.Dead;
    ProgMutexOk(w.prog, rounds);
    ProgSize(w.prog, t, rounds);
    ProgWaits(w.prog, t, u, rounds);
    match CallOf(w.prog.pcs[t], esp)
    case NoEvent =>
    case Does(e) =>
      if Safety.Dead(Step(w.sys, e).k, w.base + u) {
        Safety.OnlyExitKills(w.sys, e, w.base + u);
      }
  }

  lemma ProgSize(p: C.State, t: nat, rounds: nat)
    requires C.CanStep(p, t)
    ensures |C.Step(p, t, rounds).pcs| == |p.pcs|
  {
  }

  /** And the mutexes stay the same. */
  lemma MutexesSame(w: World, t: nat, esp: nat, rounds: nat)
    requires Coupled(w, rounds) && C.CanStep(w.prog, t) && w.sys.k.thread == To(w.base + t)
    requires Sized(w.sys) && Tables(w.sys.k)
    requires CallOf(w.prog.pcs[t], esp).Does? ==> Enabled(w.sys, CallOf(w.prog.pcs[t], esp).e)
    ensures var w1 := WorkerStep(w, t, esp, rounds);
      && NT(w1.sys.k) == NT(w.sys.k) && |w1.sys.mutexes| >= 1
      && SameMutex(w1.sys.mutexes[MUTEX], C.Step(w.prog, t, rounds).mutex, w.base)
  {
    hide Tables;
    hide Inv;
    hide C.Inv;
    hide C.Step;
    hide Lock;
    hide Unlock;
    hide Step;
    hide MutexOk;
    hide Waiting;
    hide Safety.Dead;
    var p, pc := w.prog, w.prog.pcs[t];
    ProgMutexOk(p, rounds);
    ProgWaits(p, t, t, rounds);
    if pc.AtLock? {
      ShiftLock(w.sys.mutexes[MUTEX], p.mutex, w.base, t);
      LockBlocked(w.sys, MUTEX, esp, 0);
      Safety.StepMutex(w.sys, CallLock(MUTEX, esp), MUTEX);
    } else if pc.AtUnlock? {
      ShiftUnlock(w.sys.mutexes[MUTEX], p.mutex, w.base, t);
      UnlockBlocked(w.sys, MUTEX, 0);
      Safety.StepMutex(w.sys, CallUnlock(MUTEX), MUTEX);
    }
  }

  /** One statement of the running worker, in the kernel and in the program: they stay coupled. */
  lemma WorkerStepCoupled(w: World, t: nat, esp: nat, rounds: nat)
    requires Coupled(w, rounds) && C.CanStep(w.prog, t) && w.sys.k.thread == To(w.base + t)
    requires Sized(w.sys) && Tables(w.sys.k)
    requires CallOf(w.prog.pcs[t], esp).Does? ==> Enabled(w.sys, CallOf(w.prog.pcs[t], esp).e)
    ensures Coupled(WorkerStep(w, t, esp, rounds), rounds)
  {
    hide Tables;
    hide Inv;
    hide C.Inv;
    hide C.Step;
    hide Step;
    hide SameMutex;
    hide Waiting;
    hide Safety.Dead;
    C.StepInv(w.prog, t, rounds);
    ProgSize(w.prog, t, rounds);
    MutexesSame(w, t, esp, rounds);
    var p1, w1 := C.Step(w.prog, t, rounds), WorkerStep(w, t, esp, rounds);
    forall u: nat | u < |w.prog.pcs|
      ensures Waiting(p1, u) <==> Blocked(w1.sys.k, w.base + u)
    {
      WaitersBlocked(w, t, esp, rounds, u);
    }
    forall u: nat | Unfinished(p1, u)
      ensures !Safety.Dead(w1.sys.k, w.base + u)
    {
      WorkersLive(w, t, esp, rounds, u);
    }
    match CallOf(w.prog.pcs[t], esp)
    case NoEvent =>
    case Does(e) => StepInv(w.sys, e);
  }

  lemma SameWaiting(p: C.State, p1: C.State, u: nat)
    requires p1.mutex == p.mutex
    ensures Waiting(p1, u) <==> Waiting(p, u)
  {
  }

  lemma ProgMutexOk(p: C.State, rounds: nat)
    requires C.Inv(p, rounds)
    ensures MutexOk(p.mutex)
  {
  }

  // ---- Everything else -----------------------------------------------------------------

  /** What may happen besides: ticks, a finished worker's exit, and any call of any other context that
      leaves the demo's mutex alone. */
  predicate Around(w: World, e: Event) {
    && Enabled(w.sys, e)
    && (e.Tick? || !IsWorker(w, w.sys.k.thread)
        || (e.ThreadExits? && !Unfinished(w.prog, w.sys.k.thread.slot - w.base)))
    && match e
       case CallLock(m, _) => m != MUTEX
       case CallUnlock(m) => m != MUTEX
       case InitMutex(m) => m != MUTEX
       case _ => true
  }

  /** A thread waiting for the mutex goes on waiting unless it is unlocked. */
  lemma StillBlocked(s: Sys, e: Event, m: nat, t: nat)
    requires Inv(s) && Enabled(s, e) && m < |s.mutexes| && t in s.mutexes[m].queue && e != CallUnlock(m)
    ensures Blocked(s.k, t) && Blocked(Step(s, e).k, t)
  {
    hide Tables;
    hide Step;
    InvTables(s);
    assert Waits(s, t, InLock(m));
    Safety.WokenIff(s, e, t);
  }

  lemma AroundCoupled(w: World, e: Event, rounds: nat)
    requires Coupled(w, rounds) && Around(w, e)
    ensures Sized(w.sys) && Tables(w.sys.k) && Coupled(w.(sys := Step(w.sys, e)), rounds)
  {
    hide Tables;
    hide Inv;
    hide C.Inv;
    hide Step;
    InvTables(w.sys);
    StepInv(w.sys, e);
    Fairness.StepPaid(w.sys, e, 0, 0);
    Safety.StepMutex(w.sys, e, MUTEX);
    forall t: nat | t < |w.prog.pcs|
      ensures Waiting(w.prog, t) <==> Blocked(Step(w.sys, e).k, w.base + t)
    {
      if Waiting(w.prog, t) {
        QueuedInKernel(w, t);
        StillBlocked(w.sys, e, MUTEX, w.base + t);
      } else {
        TableSizes(w.sys.k);
        Fairness.StillFree(w.sys, e, w.base + t);
      }
    }
    forall t: nat | Unfinished(w.prog, t)
      ensures !Safety.Dead(Step(w.sys, e).k, w.base + t)
    {
      if Safety.Dead(Step(w.sys, e).k, w.base + t) {
        Safety.OnlyExitKills(w.sys, e, w.base + t);
      }
    }
  }

  lemma QueuedInKernel(w: World, t: nat)
    requires |w.sys.mutexes| >= 1 && SameMutex(w.sys.mutexes[MUTEX], w.prog.mutex, w.base) && Waiting(w.prog, t)
    ensures w.base + t in w.sys.mutexes[MUTEX].queue
  {
    var q := w.prog.mutex.queue;
    var i :| 0 <= i < |q| && q[i] == t;
    assert D.Shift(q, w.base)[i] == w.base + t;
  }

  /** cmd_mutexdemo couples them: the mutex just initialised, the threads just created. */
  lemma DemoStarts(w: World, rounds: nat)
    requires Inv(w.sys) && C.Initial(w.prog, rounds) && |w.sys.mutexes| >= 1 && w.sys.mutexes[MUTEX] == FREE
    requires w.base + |w.prog.pcs| <= NT(w.sys.k)
    requires forall t :: w.base <= t < w.base + |w.prog.pcs| ==> Fairness.ReadyT(w.sys.k, t)
    ensures Coupled(w, rounds)
  {
    hide Inv;
    hide C.Inv;
    C.InitialInv(w.prog, rounds);
    forall t: nat | t < |w.prog.pcs|
      ensures Waiting(w.prog, t) <==> Blocked(w.sys.k, w.base + t)
      ensures Unfinished(w.prog, t) ==> !Safety.Dead(w.sys.k, w.base + t)
    {
      assert Fairness.ReadyT(w.sys.k, w.base + t);
    }
    assert D.Shift([], w.base) == [];
  }

  // ---- Whole runs ----------------------------------------------------------------------

  datatype Happens = Statement(t: nat, esp: nat) | Other(e: Event)

  ghost predicate CanHappen(w: World, h: Happens, rounds: nat)
    requires Coupled(w, rounds)
  {
    match h
    case Statement(t, esp) => C.CanStep(w.prog, t) && w.sys.k.thread == To(w.base + t)
    case Other(e) => Around(w, e)
  }

  ghost function After(w: World, h: Happens, rounds: nat): (r: World)
    requires Coupled(w, rounds) && CanHappen(w, h, rounds)
    ensures Coupled(r, rounds)
  {
    match h
    case Statement(t, esp) =>
      WorkerEnabled(w, t, esp, rounds);
      WorkerStepCoupled(w, t, esp, rounds);
      WorkerStep(w, t, esp, rounds)
    case Other(e) =>
      AroundCoupled(w, e, rounds);
      w.(sys := Step(w.sys, e))
  }

  ghost predicate CanRun(w: World, hs: seq<Happens>, rounds: nat)
    requires Coupled(w, rounds)
    decreases |hs|
  {
    hs == [] || (CanHappen(w, hs[0], rounds) && CanRun(After(w, hs[0], rounds), hs[1..], rounds))
  }

  ghost function Run(w: World, hs: seq<Happens>, rounds: nat): (r: World)
    requires Coupled(w, rounds) && CanRun(w, hs, rounds)
    ensures Coupled(r, rounds)
    decreases |hs|
  {
    if hs == [] then w else Run(After(w, hs[0], rounds), hs[1..], rounds)
  }

  /** Which workers' statements a run executes, in order. */
  function Schedule(hs: seq<Happens>): seq<nat> {
    if hs == [] then [] else (if hs[0].Statement? then [hs[0].t] else []) + Schedule(hs[1..])
  }

  /** Whatever the kernel and the other contexts do, the workers' statements are a run of Counter. */
  lemma {:induction false} KernelRunIsProgramRun(w: World, hs: seq<Happens>, rounds: nat)
    requires Coupled(w, rounds) && CanRun(w, hs, rounds)
    ensures C.CanRun(w.prog, Schedule(hs), rounds)
    ensures Run(w, hs, rounds).prog == C.Run(w.prog, Schedule(hs), rounds)
    decreases |hs|
  {
    hide Coupled;
    hide C.Step;
    if hs != [] {
      KernelRunIsProgramRun(After(w, hs[0], rounds), hs[1..], rounds);
      var rest := Schedule(hs[1..]);
      if hs[0].Statement? {
        assert Schedule(hs) == [hs[0].t] + rest;
        assert Schedule(hs)[1..] == rest;
      } else {
        assert Schedule(hs) == rest;
      }
    }
  }

  // ---- The workers get there -----------------------------------------------------------

  /** No deadlock in the kernel: while workers are unfinished, the thread of one of them is READY or
      RUNNING. */
  lemma SomeWorkerRunnable(w: World, rounds: nat) returns (t: nat)
    requires Coupled(w, rounds) && !C.Finished(w.prog)
    ensures Unfinished(w.prog, t) && C.CanStep(w.prog, t)
    ensures w.base + t < NT(w.sys.k) && Fairness.Runnable(w.sys.k, w.base + t)
  {
    hide Inv;
    hide C.Inv;
    C.SomeoneCanStep(w.prog, rounds);
    t :| C.CanStep(w.prog, t);
    assert Unfinished(w.prog, t) && !Waiting(w.prog, t);
    Fairness.LivingRuns(w.sys, w.base + t);
  }

  /** Has the running worker executed a statement since it was dispatched? */
  ghost function WorkedAfter(w: World, h: Happens, worked: bool, rounds: nat): bool
    requires Coupled(w, rounds) && CanHappen(w, h, rounds)
  {
    Fairness.StillWorked(w.sys.k, After(w, h, rounds).sys.k, worked || h.Statement?)
  }

  /** The timer is not so fast that an unfinished worker loses the CPU before it has executed a
      single statement. */
  predicate GivesTime(w: World, h: Happens, worked: bool) {
    h.Other? && h.e.Tick? && IsWorker(w, w.sys.k.thread) && Unfinished(w.prog, w.sys.k.thread.slot - w.base) ==> worked
  }

  ghost predicate Timely(w: World, hs: seq<Happens>, worked: bool, rounds: nat)
    requires Coupled(w, rounds) && CanRun(w, hs, rounds)
    decreases |hs|
  {
    hs == [] ||
    (GivesTime(w, hs[0], worked) && Timely(After(w, hs[0], rounds), hs[1..], WorkedAfter(w, hs[0], worked, rounds), rounds))
  }

  lemma StatementCost(w: World, t: nat, esp: nat, rounds: nat)
    requires Coupled(w, rounds) && CanHappen(w, Statement(t, esp), rounds)
    ensures var w1 := After(w, Statement(t, esp), rounds);
      && w.sys.k.ticks <= w1.sys.k.ticks <= w.sys.k.ticks + 1 && Tables(w1.sys.k)
      && C.Sum(w1.prog.pcs, C.LeftBy(rounds)) == C.Sum(w.prog.pcs, C.LeftBy(rounds)) - 1
  {
    hide Tables;
    hide Inv;
    hide C.Inv;
    hide C.Step;
    hide Step;
    WorkerEnabled(w, t, esp, rounds);
    C.StepInv(w.prog, t, rounds);
    InvTables(After(w, Statement(t, esp), rounds).sys);
    match CallOf(w.prog.pcs[t], esp)
    case NoEvent =>
    case Does(e) => Fairness.StepSwitches(w.sys, e);
  }

  lemma OtherCost(w: World, e: Event, t: nat, worked: bool, rounds: nat)
    requires Coupled(w, rounds) && CanHappen(w, Other(e), rounds) && GivesTime(w, Other(e), worked)
    requires Unfinished(w.prog, t) && C.CanStep(w.prog, t)
    requires w.base + t < NT(w.sys.k) && Tables(w.sys.k) && Fairness.Runnable(w.sys.k, w.base + t)
    ensures var w1 := After(w, Other(e), rounds); var worked1 := WorkedAfter(w, Other(e), worked, rounds);
      && w1.prog == w.prog && w1.base == w.base && Tables(w1.sys.k)
      && w.base + t < NT(w1.sys.k) && Fairness.Runnable(w1.sys.k, w.base + t)
      && w.sys.k.ticks <= w1.sys.k.ticks
      && Fairness.Delay(w1.sys.k, w.base + t, worked1) + w1.sys.k.ticks - w.sys.k.ticks
         <= Fairness.Delay(w.sys.k, w.base + t, worked)
  {
    hide Tables;
    hide C.Inv;
    hide Step;
    hide Fairness.Delay;
    AroundCoupled(w, e, rounds);
    var w1 := After(w, Other(e), rounds);
    Fairness.StepPaid(w.sys, e, 0, 0);
    assert !Waiting(w1.prog, t);
    Fairness.LivingRuns(w1.sys, w.base + t);
    if Fairness.RunningT(w.sys.k, w.base + t) {
      Fairness.RunningIsCurrent(w.sys, w.base + t);
    }
    Fairness.DelayPaid(w.sys, e, w.base + t, worked);
  }

  lemma {:induction false} FinishedStays(w: World, hs: seq<Happens>, rounds: nat)
    requires Coupled(w, rounds) && CanRun(w, hs, rounds) && C.Finished(w.prog)
    ensures C.Finished(Run(w, hs, rounds).prog)
    decreases |hs|
  {
    hide Coupled;
    if hs != [] {
      FinishedStays(After(w, hs[0], rounds), hs[1..], rounds);
    }
  }

  /** The statements still to execute pay for all interrupts until the workers have finished. */
  lemma {:induction false} ProgressPaid(w: World, hs: seq<Happens>, worked: bool, t: nat, rounds: nat)
    requires Coupled(w, rounds) && CanRun(w, hs, rounds) && Timely(w, hs, worked, rounds)
    requires Unfinished(w.prog, t) && C.CanStep(w.prog, t)
    requires w.base + t < NT(w.sys.k) && Tables(w.sys.k) && Fairness.Runnable(w.sys.k, w.base + t)
    ensures var w1 := Run(w, hs, rounds);
      C.Finished(w1.prog) ||
      w1.sys.k.ticks - w.sys.k.ticks <= Fairness.Delay(w.sys.k, w.base + t, worked)
        + D.STATEMENT_COST * (C.Sum(w.prog.pcs, C.LeftBy(rounds)) - C.Sum(w1.prog.pcs, C.LeftBy(rounds)))
    decreases |hs|
  {
    hide Coupled;
    hide CanHappen;
    hide After;
    hide GivesTime;
    hide Tables;
    hide C.CanStep;
    hide C.Sum;
    hide C.Finished;
    hide Fairness.Delay;
    hide Fairness.Runnable;
    hide Unfinished;
    if hs != [] {
      var w1 := After(w, hs[0], rounds);
      var worked1 := WorkedAfter(w, hs[0], worked, rounds);
      match hs[0]
      case Statement(u, esp) =>
        StatementCost(w, u, esp, rounds);
        if C.Finished(w1.prog) {
          FinishedStays(w1, hs[1..], rounds);
        } else {
          var t1 := SomeWorkerRunnable(w1, rounds);
          ProgressPaid(w1, hs[1..], worked1, t1, rounds);
        }
      case Other(e) =>
        OtherCost(w, e, t, worked, rounds);
        ProgressPaid(w1, hs[1..], worked1, t, rounds);
    }
  }

  lemma WorkersFinish(w: World, hs: seq<Happens>, rounds: nat)
    requires Coupled(w, rounds) && CanRun(w, hs, rounds) && Timely(w, hs, false, rounds) && C.Initial(w.prog, rounds)
    requires Run(w, hs, rounds).sys.k.ticks - w.sys.k.ticks >= 66 * (|w.prog.pcs| * (4 * rounds) + 1)
    ensures C.Finished(Run(w, hs, rounds).prog)
  {
    hide Coupled;
    hide C.Initial;
    hide C.Finished;
    hide C.Sum;
    hide CanRun;
    hide Run;
    hide Timely;
    hide Tables;
    if C.Finished(w.prog) {
      FinishedStays(w, hs, rounds);
    } else {
      var t := SomeWorkerRunnable(w, rounds);
      CoupledTables(w, rounds);
      ProgressPaid(w, hs, false, t, rounds);
      C.InitialInv(w.prog, rounds);
      CoupledTables(Run(w, hs, rounds), rounds);
    }
  }

  lemma CoupledTables(w: World, rounds: nat)
    requires Coupled(w, rounds)
    ensures Tables(w.sys.k) && C.Sum(w.prog.pcs, C.LeftBy(rounds)) >= 0
  {
    hide Inv;
    hide C.Sum;
    InvTables(w.sys);
    C.LeftNonNegative(w.prog, rounds);
  }

  /** In the whole kernel, with any ticks and any other threads around them: between the workers'
      lock and unlock there is one of them at most, the counter is the number of increments made, and
      if no worker loses the CPU before it has executed a statement, then after 66 interrupts for each
      statement, and 66 more, the counter is threads * rounds. */
  lemma MutexDemoCompletes(w: World, hs: seq<Happens>, rounds: nat)
    requires Coupled(w, rounds) && CanRun(w, hs, rounds) && C.Initial(w.prog, rounds)
    ensures var w1 := Run(w, hs, rounds);
      && w1.prog.total == C.Sum(w1.prog.pcs, C.MadeBy(rounds))
      && (forall t: nat, u: nat :: C.Critical(w1.prog, t) && C.Critical(w1.prog, u) ==> t == u)
      && (Timely(w, hs, false, rounds)
          && w1.sys.k.ticks - w.sys.k.ticks >= 66 * (|w.prog.pcs| * (4 * rounds) + 1) ==>
        C.Finished(w1.prog) && w1.prog.total == |w.prog.pcs| * rounds)
  {
    hide Coupled;
    hide C.Initial;
    hide C.Finished;
    hide C.Sum;
    hide CanRun;
    hide Run;
    hide Timely;
    hide C.Run;
    hide C.CanRun;
    KernelRunIsProgramRun(w, hs, rounds);
    C.MutexCounts(w.prog, Schedule(hs), rounds);
    var w1 := Run(w, hs, rounds);
    if Timely(w, hs, false, rounds) && w1.sys.k.ticks - w.sys.k.ticks >= 66 * (|w.prog.pcs| * (4 * rounds) + 1) {
      WorkersFinish(w, hs, rounds);
    }
  }
}
