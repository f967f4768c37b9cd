/** The producers and consumers of cmd_semdemo as threads of the whole system, with ticks, other
    threads and processes around them: every run of the kernel is, for them, a run of ProdCons. */
module Demo {
  import opened Sched
  import opened Sync
  import opened System
  import Safety
  import Fairness
  import P = ProdCons

  /** The three semaphores come first; worker w is the thread in slot base + w. */
  const EMPTY := 0
  const FULL := 1
  const BUFFER := 2

  datatype World = World(sys: Sys, prog: P.State, base: nat)

  function Shift(q: seq<nat>, base: nat): (r: seq<nat>)
    ensures |r| == |q|
  {
    seq(|q|, i requires 0 <= i < |q| => q[i] + base)
  }

  predicate SameSem(sem: Sem, p: Sem, base: nat) {
    sem.value == p.value && sem.queue == Shift(p.queue, base)
  }

  predicate IsWorker(w: World, t: Ptr) {
    t.To? && w.base <= t.slot < w.base + |w.prog.ws|
  }

  predicate Unfinished(p: P.State, t: nat) {
    t < |p.ws| && p.ws[t].i < p.ws[t].quota
  }

  /** The program's view of its semaphores and of who is blocked is the kernel's, and the thread of an
      unfinished worker lives. */
  ghost predicate Coupled(w: World) {
    && Inv(w.sys) && P.Inv(w.prog)
    && |w.sys.sems| >= 3 && w.base + |w.prog.ws| <= NT(w.sys.k)
    && SameSem(w.sys.sems[EMPTY], w.prog.emptySem, w.base)
    && SameSem(w.sys.sems[FULL], w.prog.fullSem, w.base)
    && SameSem(w.sys.sems[BUFFER], w.prog.bufferMutex, w.base)
    && (forall t: nat :: t < |w.prog.ws| ==> (w.prog.ws[t].blocked <==> Blocked(w.sys.k, w.base + t)))
    && (forall t: nat :: Unfinished(w.prog, t) ==> !Safety.Dead(w.sys.k, w.base + t))
  }

  /** The semaphore a worker waits for first, and the one it signals last. */
  function FirstIndex(x: P.Worker): nat {
    if x.role.Producer? then EMPTY else FULL
  }

  function LastIndex(x: P.Worker): nat {
    if x.role.Producer? then FULL else EMPTY
  }

  function First(p: P.State, x: P.Worker): Sem {
    if x.role.Producer? then p.emptySem else p.fullSem
  }

  function Last(p: P.State, x: P.Worker): Sem {
    if x.role.Producer? then p.fullSem else p.emptySem
  }

  datatype MaybeEvent = NoEvent | Does(e: Event)

  /** The kernel call a worker's next statement makes, if any. */
  function CallOf(x: P.Worker, esp: nat): MaybeEvent {
    if x.at == 0 then Does(CallWait(FirstIndex(x), esp))
    else if x.at == 1 then Does(CallWait(BUFFER, esp))
    else if x.at == 5 then Does(CallSignal(BUFFER))
    else if x.at == 6 then Does(CallSignal(LastIndex(x)))
    else NoEvent
  }

  // ---- Queues side by side -------------------------------------------------------------

  lemma ShiftWait(sem: Sem, p: Sem, base: nat, t: nat)
    requires SameSem(sem, p, base)
    ensures SameSem(Wait(sem, To(base + t)).0, Wait(p, To(t)).0, base)
    ensures Wait(sem, To(base + t)).1 == Wait(p, To(t)).1
  {
    assert Shift(p.queue + [t], base) == Shift(p.queue, base) + [base + t];
  }

  lemma ShiftSignal(sem: Sem, p: Sem, base: nat)
    requires SameSem(sem, p, base)
    ensures SameSem(Signal(sem).0, Signal(p).0, base)
    ensures Signal(sem).1 == if Signal(p).1.To? then To(base + Signal(p).1.slot) else Null
  {
    if p.queue != [] {
      assert Shift(p.queue, base)[0] == p.queue[0] + base;
      assert Shift(p.queue[1..], base) == Shift(p.queue, base)[1..];
    }
  }

  // ---- A worker that runs can take its step --------------------------------------------

  /** The kernel never runs a worker that waits: whoever runs and has not finished can step. */
  lemma RunningCanStep(w: World, t: nat)
    requires Coupled(w) && t < |w.prog.ws| && w.sys.k.thread == To(w.base + t)
    ensures w.prog.ws[t].i < w.prog.ws[t].quota ==> P.CanStep(w.prog, t)
  {
    hide Tables;
    hide QueueInv;
    hide P.Tokens;
    hide P.Contents;
    RunningNotWaiting(w.sys, Idle);
  }

  // ---- A worker's step -----------------------------------------------------------------

  lemma WaitBlocked(s: Sys, j: nat, esp: nat, t: nat)
    requires Inv(s) && j < |s.sems| && Enabled(s, CallWait(j, esp))
    ensures var s1 := Step(s, CallWait(j, esp));
      && |s1.sems| == |s.sems| && s1.sems == s.sems[j := Wait(s.sems[j], s.k.thread).0]
      && NT(s.k) == NT(s1.k)
      && (Blocked(s1.k, t) <==> Blocked(s.k, t) || (Wait(s.sems[j], s.k.thread).1 && s.k.thread == To(t)))
  {
    hide Tables;
    hide Wait;
    hide Irq;
    InvTables(s);
    WaitShape(s, j);
    if Wait(s.sems[j], s.k.thread).1 {
      WaitReady(s, j);
      IrqStates(WaitBody(s, j).0.k, esp);
      assert NT(WaitBody(s, j).0.k) == NT(s.k);
    }
  }

  lemma SignalBlocked(s: Sys, j: nat, t: nat)
    requires Inv(s) && j < |s.sems| && Enabled(s, CallSignal(j))
    ensures var s1 := Step(s, CallSignal(j));
      && |s1.sems| == |s.sems| && s1.sems == s.sems[j := Signal(s.sems[j]).0]
      && NT(s.k) == NT(s1.k)
      && (Blocked(s1.k, t) <==> Blocked(s.k, t) && Signal(s.sems[j]).1 != To(t))
  {
    hide Tables;
    hide Signal;
    InvTables(s);
    SignalShape(s, j);
  }

  /** The running worker executes its next statement. */
  function WorkerStep(w: World, t: nat, esp: nat): World
    requires Sized(w.sys) && Tables(w.sys.k) && P.CanStep(w.prog, t)
    requires CallOf(w.prog.ws[t], esp).Does? ==> Enabled(w.sys, CallOf(w.prog.ws[t], esp).e)
  {
    var prog := P.Step(w.prog, t);
    match CallOf(w.prog.ws[t], esp)
    case NoEvent => w.(prog := prog)
    case Does(e) => World(Step(w.sys, e), prog, w.base)
  }

  lemma WorkerEnabled(w: World, t: nat, esp: nat)
    requires Coupled(w) && t < |w.prog.ws| && w.sys.k.thread == To(w.base + t)
    ensures Sized(w.sys) && Tables(w.sys.k) && w.sys.k.kind != Boot
    ensures CallOf(w.prog.ws[t], esp).Does? ==> Enabled(w.sys, CallOf(w.prog.ws[t], esp).e)
  {
    hide Inv;
    hide Tables;
    hide P.Inv;
    InvTables(w.sys);
    CurrentInRange(w.sys.k);
  }

  /** The program's own blocked flags follow its step. */
  lemma ProgBlocked(p: P.State, t: nat, u: nat)
    requires P.CanStep(p, t) && u < |p.ws|
    ensures |P.Step(p, t).ws| == |p.ws|
    ensures var x := p.ws[t]; var was, now := p.ws[u].blocked, P.Step(p, t).ws[u].blocked;
      && (x.at == 0 ==> (now <==> was || (u == t && Wait(First(p, x), To(t)).1)))
      && (x.at == 1 ==> (now <==> was || (u == t && Wait(p.bufferMutex, To(t)).1)))
      && (x.at == 5 ==> (now <==> was && Signal(p.bufferMutex).1 != To(u)))
      && (x.at == 6 ==> (now <==> was && Signal(Last(p, x)).1 != To(u)))
      && (2 <= x.at <= 4 ==> now == was)
  {
    hide P.Sum;
    P.StepsLess(p, t);
    hide Signal;
  }

  /** After its step: who waits is BLOCKED. */
  lemma WaitersBlocked(w: World, t: nat, esp: nat, u: nat)
    requires Coupled(w) && P.CanStep(w.prog, t) && w.sys.k.thread == To(w.base + t)
    requires Sized(w.sys) && Tables(w.sys.k)
    requires CallOf(w.prog.ws[t], esp).Does? ==> Enabled(w.sys, CallOf(w.prog.ws[t], esp).e)
    requires u < |w.prog.ws|
    ensures |P.Step(w.prog, t).ws| == |w.prog.ws|
    ensures P.Step(w.prog, t).ws[u].blocked <==> Blocked(WorkerStep(w, t, esp).sys.k, w.base + u)
  {
    hide Tables;
    hide Inv;
    hide P.Inv;
    hide P.Step;
    hide Wait;
    hide Signal;
    hide Step;
    hide Safety.Dead;
    var x := w.prog.ws[t];
    ProgBlocked(w.prog, t, u);
    match CallOf(x, esp)
    case NoEvent =>
    case Does(e) =>
      if e.CallWait? {
        ShiftWait(w.sys.sems[e.j], if x.at == 1 then w.prog.bufferMutex else First(w.prog, x), w.base, t);
        WaitBlocked(w.sys, e.j, esp, w.base + u);
      } else {
        ShiftSignal(w.sys.sems[e.j], if x.at == 5 then w.prog.bufferMutex else Last(w.prog, x), w.base);
        SignalBlocked(w.sys, e.j, w.base + u);
      }
  }

  /** And the semaphores stay the same. */
  lemma SemsSame(w: World, t: nat, esp: nat)
    requires Coupled(w) && P.CanStep(w.prog, t) && w.sys.k.thread == To(w.base + t)
    requires Sized(w.sys) && Tables(w.sys.k)
    requires CallOf(w.prog.ws[t], esp).Does? ==> Enabled(w.sys, CallOf(w.prog.ws[t], esp).e)
    ensures var w1, p1 := WorkerStep(w, t, esp), P.Step(w.prog, t);
      && NT(w1.sys.k) == NT(w.sys.k) && |w1.sys.sems| >= 3
      && SameSem(w1.sys.sems[EMPTY], p1.emptySem, w.base)
      && SameSem(w1.sys.sems[FULL], p1.fullSem, w.base)
      && SameSem(w1.sys.sems[BUFFER], p1.bufferMutex, w.base)
  {
    hide Tables;
    hide Inv;
    hide P.Inv;
    hide P.Step;
    hide Wait;
    hide Signal;
    hide Step;
    hide Safety.Dead;
    var x := w.prog.ws[t];
    ProgSems(w.prog, t);
    match CallOf(x, esp)
    case NoEvent =>
    case Does(e) =>
      if e.CallWait? {
        WaitBlocked(w.sys, e.j, esp, 0);
        ShiftWait(w.sys.sems[e.j], if x.at == 1 then w.prog.bufferMutex else First(w.prog, x), w.base, t);
      } else {
        SignalBlocked(w.sys, e.j, 0);
        ShiftSignal(w.sys.sems[e.j], if x.at == 5 then w.prog.bufferMutex else Last(w.prog, x), w.base);
      }
  }

  /** One statement of the running worker, in the kernel and in the program: they stay coupled. */
  lemma WorkerStepCoupled(w: World, t: nat, esp: nat)
    requires Coupled(w) && P.CanStep(w.prog, t) && w.sys.k.thread == To(w.base + t)
    requires Sized(w.sys) && Tables(w.sys.k)
    requires CallOf(w.prog.ws[t], esp).Does? ==> Enabled(w.sys, CallOf(w.prog.ws[t], esp).e)
    ensures Coupled(WorkerStep(w, t, esp))
  {
    hide Tables;
    hide Inv;
    hide P.Inv;
    hide P.Step;
    hide Step;
    hide SameSem;
    hide Safety.Dead;
    P.StepInv(w.prog, t);
    SemsSame(w, t, esp);
    var p1, w1 := P.Step(w.prog, t), WorkerStep(w, t, esp);
    forall u: nat | u < |w.prog.ws|
      ensures p1.ws[u].blocked <==> Blocked(w1.sys.k, w.base + u)
    {
      WaitersBlocked(w, t, esp, u);
    }
    forall u: nat | Unfinished(p1, u)
      ensures !Safety.Dead(w1.sys.k, w.base + u)
    {
      WorkersLive(w, t, esp, u);
    }
    match CallOf(w.prog.ws[t], esp)
    case NoEvent =>
    case Does(e) => StepInv(w.sys, e);
  }

  /** A statement kills nobody. */
  lemma WorkersLive(w: World, t: nat, esp: nat, u: nat)
    requires Coupled(w) && P.CanStep(w.prog, t) && w.sys.k.thread == To(w.base + t)
    requires Sized(w.sys) && Tables(w.sys.k)
    requires CallOf(w.prog.ws[t], esp).Does? ==> Enabled(w.sys, CallOf(w.prog.ws[t], esp).e)
    requires Unfinished(P.Step(w.prog, t), u)
    ensures !Safety.Dead(WorkerStep(w, t, esp).sys.k, w.base + u)
  {
    hide Tables;
    hide Inv;
    hide P.Inv;
    hide P.Step;
    hide Step;
    P.StepsLess(w.prog, t);
    P.StepForward(w.prog, t, u);
    assert Unfinished(w.prog, u);
    match CallOf(w.prog.ws[t], esp)
    case NoEvent =>
    case Does(e) =>
      if Safety.Dead(Step(w.sys, e).k, w.base + u) {
        Safety.OnlyExitKills(w.sys, e, w.base + u);
      }
  }

  lemma ProgSems(p: P.State, t: nat)
    requires P.CanStep(p, t)
    ensures |P.Step(p, t).ws| == |p.ws|
    ensures var x, p1 := p.ws[t], P.Step(p, t);
      && First(p1, x) == (if x.at == 0 then Wait(First(p, x), To(t)).0 else First(p, x))
      && Last(p1, x) == (if x.at == 6 then Signal(Last(p, x)).0 else Last(p, x))
      && p1.bufferMutex == (if x.at == 1 then Wait(p.bufferMutex, To(t)).0
                            else if x.at == 5 then Signal(p.bufferMutex).0 else p.bufferMutex)
  {
    P.StepsLess(p, t);
    hide Signal;
  }

  // ---- Everything else -----------------------------------------------------------------

  /** What may happen besides the workers' statements: ticks, a finished worker's exit, and any call
      of any other context that leaves the three semaphores alone. */
  predicate Around(w: World, e: Event) {
    && Enabled(w.sys, e)
    && (e.Tick? || !IsWorker(w, w.sys.k.thread) || (e.ThreadExits? && WorkerDone(w, w.sys.k.thread)))
    && match e
       case CallWait(j, _) => j > BUFFER
       case CallSignal(j) => j > BUFFER
       case InitSem(j, _) => j > BUFFER
       case _ => true
  }

  predicate WorkerDone(w: World, t: Ptr) {
    IsWorker(w, t) && w.prog.ws[t.slot - w.base].i == w.prog.ws[t.slot - w.base].quota
  }

  /** The semaphores an event does not name keep their value and queue. */
  lemma OtherSems(s: Sys, e: Event, j: nat)
    requires Inv(s) && Enabled(s, e) && j < |s.sems|
    requires e != CallSignal(j) && !(e.CallWait? && e.j == j) && !(e.InitSem? && e.j == j)
    ensures |Step(s, e).sems| == |s.sems| && Step(s, e).sems[j] == s.sems[j]
  {
    hide Inv;
    hide Tables;
    hide Lock;
    hide Unlock;
    hide Wait;
    hide Signal;
    hide CreateThread;
    hide CreateProcess;
    hide ExitThread;
    hide ExitProcess;
    hide Kill;
    hide SetState;
    hide Wake;
    hide Irq;
    InvTables(s);
  }

  /** A thread waiting for a semaphore goes on waiting unless the event signals it. */
  lemma StillBlocked(s: Sys, e: Event, j: nat, t: nat)
    requires Inv(s) && Enabled(s, e) && j < |s.sems| && t in s.sems[j].queue && e != CallSignal(j)
    ensures Blocked(s.k, t) && Blocked(Step(s, e).k, t)
  {
    hide Tables;
    hide Step;
    InvTables(s);
    assert Waits(s, t, InWait(j));
    Safety.WokenIff(s, e, t);
  }

  lemma AroundCoupled(w: World, e: Event)
    requires Coupled(w) && Around(w, e)
    ensures Sized(w.sys) && Tables(w.sys.k) && Coupled(w.(sys := Step(w.sys, e)))
  {
    hide Tables;
    hide Inv;
    hide P.Inv;
    hide Step;
    InvTables(w.sys);
    StepInv(w.sys, e);
    Fairness.StepPaid(w.sys, e, 0, 0);
    OtherSems(w.sys, e, EMPTY);
    OtherSems(w.sys, e, FULL);
    OtherSems(w.sys, e, BUFFER);
    forall t: nat | t < |w.prog.ws|
      ensures w.prog.ws[t].blocked <==> Blocked(Step(w.sys, e).k, w.base + t)
    {
      if w.prog.ws[t].blocked {
        var j := BlockedOn(w, t);
        StillBlocked(w.sys, e, j, w.base + t);
      } else {
        TableSizes(w.sys.k);
        Fairness.StillFree(w.sys, e, w.base + t);
      }
    }
    forall t: nat | Unfinished(w.prog, t)
      ensures !Safety.Dead(Step(w.sys, e).k, w.base + t)
    {
      if Safety.Dead(Step(w.sys, e).k, w.base + t) {
        Safety.OnlyExitKills(w.sys, e, w.base + t);
      }
    }
  }

  /** A blocked worker is in the queue of one of its three semaphores. */
  lemma BlockedOn(w: World, t: nat) returns (j: nat)
    requires Coupled(w) && t < |w.prog.ws| && w.prog.ws[t].blocked
    ensures j <= BUFFER < |w.sys.sems| && w.base + t in w.sys.sems[j].queue
  {
    hide Inv;
    hide P.Tokens;
    hide P.Contents;
    var x := w.prog.ws[t];
    j := if x.at == 2 then BUFFER else FirstIndex(x);
    var q := if x.at == 2 then w.prog.bufferMutex.queue else First(w.prog, x).queue;
    assert P.WorkerOk(x);
    assert P.WaitsSlot(w.prog.ws, t) || P.WaitsItem(w.prog.ws, t) || P.WaitsBuffer(w.prog.ws, t);
    assert t in q;
    var i :| 0 <= i < |q| && q[i] == t;
    assert Shift(q, w.base)[i] == w.base + t;
  }

  /** cmd_semdemo couples them: three semaphores just initialised, the workers just created. */
  lemma DemoStarts(w: World)
    requires Inv(w.sys) && P.Initial(w.prog) && |w.sys.sems| >= 3 && w.base + |w.prog.ws| <= NT(w.sys.k)
    requires w.sys.sems[EMPTY] == Sem(|w.prog.buffer|, []) && w.sys.sems[FULL] == Sem(0, [])
    requires w.sys.sems[BUFFER] == Sem(1, [])
    requires forall t :: w.base <= t < w.base + |w.prog.ws| ==> Fairness.ReadyT(w.sys.k, t)
    ensures Coupled(w)
  {
    hide Inv;
    hide P.Inv;
    P.InitialInv(w.prog);
    forall t: nat | t < |w.prog.ws|
      ensures w.prog.ws[t].blocked <==> Blocked(w.sys.k, w.base + t)
      ensures Unfinished(w.prog, t) ==> !Safety.Dead(w.sys.k, w.base + t)
    {
      assert Fairness.ReadyT(w.sys.k, w.base + t);
    }
    assert Shift([], w.base) == [];
  }

  // ---- Whole runs ----------------------------------------------------------------------

  datatype Happens = Statement(t: nat, esp: nat) | Other(e: Event)

  ghost predicate CanHappen(w: World, h: Happens)
    requires Coupled(w)
  {
    match h
    case Statement(t, esp) => P.CanStep(w.prog, t) && w.sys.k.thread == To(w.base + t)
    case Other(e) => Around(w, e)
  }

  ghost function After(w: World, h: Happens): (r: World)
    requires Coupled(w) && CanHappen(w, h)
    ensures Coupled(r)
  {
    match h
    case Statement(t, esp) =>
      WorkerEnabled(w, t, esp);
      WorkerStepCoupled(w, t, esp);
      WorkerStep(w, t, esp)
    case Other(e) =>
      AroundCoupled(w, e);
      w.(sys := Step(w.sys, e))
  }

  ghost predicate CanRun(w: World, hs: seq<Happens>)
    requires Coupled(w)
    decreases |hs|
  {
    hs == [] || (CanHappen(w, hs[0]) && CanRun(After(w, hs[0]), hs[1..]))
  }

  ghost function Run(w: World, hs: seq<Happens>): (r: World)
    requires Coupled(w) && CanRun(w, hs)
    ensures Coupled(r)
    decreases |hs|
  {
    if hs == [] then w else Run(After(w, hs[0]), hs[1..])
  }

  /** Which workers' statements a run executes, in order. */
  function Schedule(hs: seq<Happens>): seq<nat> {
    if hs == [] then [] else (if hs[0].Statement? then [hs[0].t] else []) + Schedule(hs[1..])
  }

  /** Whatever the kernel and the other contexts do, the workers' statements are a run of ProdCons:
      its theorems hold in every run of the whole system. */
  lemma {:induction false} KernelRunIsProgramRun(w: World, hs: seq<Happens>)
    requires Coupled(w) && CanRun(w, hs)
    ensures P.CanRun(w.prog, Schedule(hs)) && Run(w, hs).prog == P.Run(w.prog, Schedule(hs))
    decreases |hs|
  {
    hide Coupled;
    hide P.Step;
    if hs != [] {
      KernelRunIsProgramRun(After(w, hs[0]), hs[1..]);
      var rest := Schedule(hs[1..]);
      if hs[0].Statement? {
        assert Schedule(hs) == [hs[0].t] + rest;
        assert Schedule(hs)[1..] == rest;
      } else {
        assert Schedule(hs) == rest;
      }
    }
  }

  // ---- The workers get there -----------------------------------------------------------

  /** No deadlock in the kernel: while workers are unfinished, the thread of one of them is READY or
      RUNNING. */
  lemma SomeWorkerRunnable(w: World) returns (t: nat)
    requires Coupled(w) && |w.prog.buffer| > 0 && P.Sum(w.prog.ws, P.NetQuota()) == 0 && !P.Finished(w.prog)
    ensures Unfinished(w.prog, t) && P.CanStep(w.prog, t)
    ensures w.base + t < NT(w.sys.k) && Fairness.Runnable(w.sys.k, w.base + t)
  {
    hide Inv;
    hide P.Inv;
    P.SomeoneCanStep(w.prog);
    t :| P.CanStep(w.prog, t);
    assert Unfinished(w.prog, t) && !w.prog.ws[t].blocked;
    Fairness.LivingRuns(w.sys, w.base + t);
  }

  /** Has the running worker executed a statement since it was dispatched? */
  ghost function WorkedAfter(w: World, h: Happens, worked: bool): bool
    requires Coupled(w) && CanHappen(w, h)
  {
    Fairness.StillWorked(w.sys.k, After(w, h).sys.k, worked || h.Statement?)
  }

  /** The timer is not so fast that an unfinished worker loses the CPU before it has executed a
      single statement. */
  predicate GivesTime(w: World, h: Happens, worked: bool) {
    h.Other? && h.e.Tick? && IsWorker(w, w.sys.k.thread) && Unfinished(w.prog, w.sys.k.thread.slot - w.base) ==> worked
  }

  ghost predicate Timely(w: World, hs: seq<Happens>, worked: bool)
    requires Coupled(w) && CanRun(w, hs)
    decreases |hs|
  {
    hs == [] || (GivesTime(w, hs[0], worked) && Timely(After(w, hs[0]), hs[1..], WorkedAfter(w, hs[0], worked)))
  }

  /** Interrupts one statement may cost, its own yield included. */
  const STATEMENT_COST := Fairness.MAX_DELAY + 1

  lemma StatementCost(w: World, t: nat, esp: nat)
    requires Coupled(w) && CanHappen(w, Statement(t, esp))
    ensures var w1 := After(w, Statement(t, esp));
      && w.sys.k.ticks <= w1.sys.k.ticks <= w.sys.k.ticks + 1
      && w1.prog == P.Step(w.prog, t) && w1.base == w.base
  {
    hide Tables;
    hide P.Step;
    hide Step;
    WorkerEnabled(w, t, esp);
    match CallOf(w.prog.ws[t], esp)
    case NoEvent =>
    case Does(e) => Fairness.StepSwitches(w.sys, e);
  }

  lemma OtherCost(w: World, e: Event, t: nat, worked: bool)
    requires Coupled(w) && CanHappen(w, Other(e)) && GivesTime(w, Other(e), worked)
    requires Unfinished(w.prog, t) && P.CanStep(w.prog, t)
    requires w.base + t < NT(w.sys.k) && Tables(w.sys.k) && Fairness.Runnable(w.sys.k, w.base + t)
    ensures var w1 := After(w, Other(e)); var worked1 := WorkedAfter(w, Other(e), worked);
      && w1.prog == w.prog && w1.base == w.base && Tables(w1.sys.k)
      && w.base + t < NT(w1.sys.k) && Fairness.Runnable(w1.sys.k, w.base + t)
      && w.sys.k.ticks <= w1.sys.k.ticks
      && Fairness.Delay(w1.sys.k, w.base + t, worked1) + w1.sys.k.ticks - w.sys.k.ticks
         <= Fairness.Delay(w.sys.k, w.base + t, worked)
  {
    hide Tables;
    hide P.Inv;
    hide Step;
    hide Fairness.Delay;
    AroundCoupled(w, e);
    var w1 := After(w, Other(e));
    Fairness.StepPaid(w.sys, e, 0, 0);
    Fairness.LivingRuns(w1.sys, w.base + t);
    if Fairness.RunningT(w.sys.k, w.base + t) {
      Fairness.RunningIsCurrent(w.sys, w.base + t);
    }
    Fairness.DelayPaid(w.sys, e, w.base + t, worked);
  }

  lemma {:induction false} FinishedStays(w: World, hs: seq<Happens>)
    requires Coupled(w) && CanRun(w, hs) && P.Finished(w.prog)
    ensures P.Finished(Run(w, hs).prog)
    decreases |hs|
  {
    hide Coupled;
    if hs != [] {
      FinishedStays(After(w, hs[0]), hs[1..]);
    }
  }

  /** The statements still to execute pay for all interrupts until the workers have finished. */
  lemma {:induction false} ProgressPaid(w: World, hs: seq<Happens>, worked: bool, t: nat)
    requires Coupled(w) && CanRun(w, hs) && Timely(w, hs, worked)
    requires |w.prog.buffer| > 0 && P.Sum(w.prog.ws, P.NetQuota()) == 0
    requires Unfinished(w.prog, t) && P.CanStep(w.prog, t)
    requires w.base + t < NT(w.sys.k) && Tables(w.sys.k) && Fairness.Runnable(w.sys.k, w.base + t)
    ensures var w1 := Run(w, hs);
      P.Finished(w1.prog) ||
      w1.sys.k.ticks - w.sys.k.ticks <= Fairness.Delay(w.sys.k, w.base + t, worked)
        + STATEMENT_COST * (P.Sum(w.prog.ws, P.StepsLeft()) - P.Sum(w1.prog.ws, P.StepsLeft()))
    decreases |hs|
  {
    hide Coupled;
    hide CanHappen;
    hide After;
    hide GivesTime;
    hide Tables;
    hide P.Step;
    hide P.CanStep;
    hide P.Sum;
    hide P.Finished;
    hide Fairness.Delay;
    hide Fairness.Runnable;
    hide Unfinished;
    if hs != [] {
      var w1 := After(w, hs[0]);
      var worked1 := WorkedAfter(w, hs[0], worked);
      match hs[0]
      case Statement(u, esp) =>
        StatementCost(w, u, esp);
        StatementFacts(w, u, esp);
        if P.Finished(w1.prog) {
          FinishedStays(w1, hs[1..]);
        } else {
          var t1 := SomeWorkerRunnable(w1);
          ProgressPaid(w1, hs[1..], worked1, t1);
        }
      case Other(e) =>
        OtherCost(w, e, t, worked);
        ProgressPaid(w1, hs[1..], worked1, t);
    }
  }

  lemma StatementFacts(w: World, t: nat, esp: nat)
    requires Coupled(w) && CanHappen(w, Statement(t, esp))
    ensures var w1 := After(w, Statement(t, esp));
      && Tables(w1.sys.k) && |w1.prog.buffer| == |w.prog.buffer|
      && P.Sum(w1.prog.ws, P.NetQuota()) == P.Sum(w.prog.ws, P.NetQuota())
      && P.Sum(w1.prog.ws, P.StepsLeft()) == P.Sum(w.prog.ws, P.StepsLeft()) - 1
  {
    hide P.Step;
    hide Step;
    hide Inv;
    StatementCost(w, t, esp);
    P.StepInv(w.prog, t);
    InvTables(After(w, Statement(t, esp)).sys);
  }

  lemma RunLeaves(w: World, hs: seq<Happens>)
    requires Coupled(w) && CanRun(w, hs) && P.Initial(w.prog)
    ensures P.Sum(Run(w, hs).prog.ws, P.StepsLeft()) >= 0
  {
    hide Coupled;
    hide P.Initial;
    hide P.Sum;
    CoupledTables(Run(w, hs));
    StepsLeftPositive(Run(w, hs).prog);
  }

  lemma WorkersFinish(w: World, hs: seq<Happens>)
    requires Coupled(w) && CanRun(w, hs) && Timely(w, hs, false) && P.Initial(w.prog)
    requires |w.prog.buffer| > 0 && P.Sum(w.prog.ws, P.NetQuota()) == 0
    requires Run(w, hs).sys.k.ticks - w.sys.k.ticks >= 66 * (P.Sum(w.prog.ws, P.StepsLeft()) + 1)
    ensures P.Finished(Run(w, hs).prog)
  {
    hide Coupled;
    hide P.Initial;
    hide P.Finished;
    hide P.Sum;
    hide CanRun;
    hide Run;
    hide Timely;
    hide Tables;
    if P.Finished(w.prog) {
      FinishedStays(w, hs);
    } else {
      var t := SomeWorkerRunnable(w);
      CoupledTables(w);
      ProgressPaid(w, hs, false, t);
      RunLeaves(w, hs);
    }
  }

  /** The kernel brings the workers there: if no worker loses the CPU before it has executed a
      statement, they have all finished after 66 interrupts for each statement of the programs, and
      66 more; the buffer is then empty and everything produced has been consumed. */
  lemma DemoCompletes(w: World, hs: seq<Happens>)
    requires Coupled(w) && CanRun(w, hs) && Timely(w, hs, false) && P.Initial(w.prog)
    requires |w.prog.buffer| > 0 && P.Sum(w.prog.ws, P.NetQuota()) == 0
    requires Run(w, hs).sys.k.ticks - w.sys.k.ticks >= 66 * (P.Sum(w.prog.ws, P.StepsLeft()) + 1)
    ensures var p := Run(w, hs).prog;
      P.Finished(p) && p.count == 0 && p.consumed == p.inserted == P.Produced(p.ws)
  {
    hide Coupled;
    hide P.Initial;
    hide P.Finished;
    hide P.Sum;
    hide Timely;
    WorkersFinish(w, hs);
    DemoResult(w, hs);
  }

  lemma CoupledTables(w: World)
    requires Coupled(w)
    ensures Tables(w.sys.k) && P.Inv(w.prog)
  {
    hide Inv;
    hide P.Inv;
    InvTables(w.sys);
  }

  lemma StepsLeftPositive(p: P.State)
    requires P.Inv(p)
    ensures P.Sum(p.ws, P.StepsLeft()) >= 0
  {
    P.SumNonNegative(p.ws, P.StepsLeft());
  }

  /** In particular the demo's result: with the kernel's own scheduler, any interleaving of ticks
      and other threads, the buffer is never over- or underrun, and once the workers have finished
      it is empty and everything produced has been consumed. */
  lemma DemoResult(w: World, hs: seq<Happens>)
    requires Coupled(w) && CanRun(w, hs) && P.Initial(w.prog)
    requires |w.prog.buffer| > 0 && P.Sum(w.prog.ws, P.NetQuota()) == 0
    ensures var p := Run(w, hs).prog;
      && 0 <= p.count <= |w.prog.buffer|
      && p.inserted == P.Produced(p.ws)
      && (P.Finished(p) ==> p.count == 0 && p.consumed == P.Produced(p.ws))
  {
    hide Coupled;
    hide P.Initial;
    hide P.Finished;
    KernelRunIsProgramRun(w, hs);
    P.BufferSafe(w.prog, Schedule(hs));
    P.AllConsumed(w.prog, Schedule(hs));
  }
}
