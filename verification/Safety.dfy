/** What holds in every run of the whole system: the thread and process state machines, mutual
    exclusion, first come first served, conservation of semaphores, exact wait queues. */
module Safety {
  import opened Sched
  import opened Sync
  import opened System

  // ---- State machines ------------------------------------------------------------------

  /** The only ways a thread's state changes in one step. */
  predicate ThreadMove(a: TState, b: TState) {
    || a == b
    || (a == Unused && b == TReady)
    || (a == TReady && b == TRunning)
    || (a == TRunning && (b == TReady || b == TBlocked || b == Terminated))
    || (a == TBlocked && b == TReady)
  }

  predicate ProcMove(a: PState, b: PState) {
    || a == b
    || (a == PReady && b == PRunning)
    || (a == PRunning && b == PReady)
    || ((a == PReady || a == PRunning) && b == Zombie)
  }

  predicate Moves(k: Kernel, k1: Kernel) {
    && |k1.threads| == |k.threads| && |k1.procs| == |k.procs| && NP(k) <= NP(k1) <= |k.procs|
    && (forall t :: 0 <= t < |k.threads| ==> ThreadMove(k.threads[t].state, k1.threads[t].state))
    && (forall p :: 0 <= p < NP(k) ==> ProcMove(k.procs[p].state, k1.procs[p].state))
  }

  /** What a body does before it yields: the caller may leave RUNNING, a process may die. */
  predicate Quits(k: Kernel, k1: Kernel) {
    && |k1.threads| == |k.threads| && |k1.procs| == |k.procs| && NP(k1) == NP(k) <= |k.procs|
    && (forall t :: 0 <= t < |k.threads| ==>
      || k1.threads[t].state == k.threads[t].state
      || (k.threads[t].state == TRunning && (k1.threads[t].state == TBlocked || k1.threads[t].state == Terminated)))
    && (forall p :: 0 <= p < NP(k) ==>
      k1.procs[p].state == k.procs[p].state || (k.procs[p].state != PBlocked && k1.procs[p].state == Zombie))
  }

  lemma SwitchMoves(k: Kernel, k0: Kernel, k1: Kernel)
    requires Quits(k, k0) && |k1.threads| == |k0.threads| && |k1.procs| == |k0.procs| && NP(k1) == NP(k0)
    requires (ThreadsSwitched(k0, k1) && ProcsSwitched(k0, k1)) || k1 == k0
    ensures Moves(k, k1)
    ensures forall t: nat :: Blocked(k, t) ==> Blocked(k1, t)
  {
    hide NP;
  }

  lemma QuitMoves(k: Kernel, r: (Sys, bool), esp: nat)
    requires Ready(r) && Quits(k, r.0.k)
    ensures Moves(k, MaybeYield(r, esp).k)
    ensures forall t: nat :: Blocked(k, t) ==> Blocked(MaybeYield(r, esp).k, t)
  {
    hide QueueInv;
    hide Tables;
    hide Irq;
    hide Quits;
    hide Moves;
    hide ThreadsSwitched;
    hide ProcsSwitched;
    hide Settled;
    hide OnlyCurrentRuns;
    hide ShellAlive;
    if r.1 {
      IrqStates(r.0.k, esp);
    }
    SwitchMoves(k, r.0.k, MaybeYield(r, esp).k);
  }

  lemma LockQuits(s: Sys, m: nat)
    requires Inv(s) && m < |s.mutexes|
    ensures Quits(s.k, LockBody(s, m).0.k)
  {
    hide QueueInv;
    hide ThreadTable;
    hide ProcTable;
    InvTables(s);
    TableSizes(s.k);
    RunningNotWaiting(s, Idle);
  }

  lemma WaitQuits(s: Sys, j: nat)
    requires Inv(s) && j < |s.sems|
    ensures Quits(s.k, WaitBody(s, j).0.k)
  {
    hide QueueInv;
    hide ThreadTable;
    hide ProcTable;
    InvTables(s);
    TableSizes(s.k);
    RunningNotWaiting(s, Idle);
  }

  lemma ExitQuits(s: Sys)
    requires Inv(s)
    ensures Quits(s.k, ExitBody(s).0.k)
  {
    hide QueueInv;
    hide ThreadTable;
    hide ProcTable;
    InvTables(s);
    TableSizes(s.k);
    RunningNotWaiting(s, Idle);
  }

  lemma KillQuits(s: Sys, pid: nat)
    requires Inv(s)
    ensures Quits(s.k, KillBody(s, pid).0.k)
  {
    hide QueueInv;
    hide ThreadTable;
    hide ProcTable;
    InvTables(s);
    TableSizes(s.k);
  }

  lemma ProcessExitQuits(s: Sys)
    requires Inv(s)
    ensures Quits(s.k, ProcessExitBody(s).0.k)
  {
    hide QueueInv;
    hide ThreadTable;
    hide ProcTable;
    InvTables(s);
    TableSizes(s.k);
    CurrentInRange(s.k);
  }

  lemma WakeMoves(k: Kernel, woken: Ptr)
    requires Tables(k)
    ensures Moves(k, Wake(k, woken))
  {
    hide ThreadTable;
    hide ProcTable;
    TableSizes(k);
  }

  lemma CreateMoves(k: Kernel, esp: nat)
    requires Tables(k)
    ensures Moves(k, CreateThread(k, esp).0) && Moves(k, CreateProcess(k, esp).0)
  {
    hide ThreadTable;
    hide ProcTable;
    hide CreateThread;
    hide CreateProcess;
    TableSizes(k);
    CreateThreadTables(k, esp);
    CreateProcessTables(k, esp);
    NewThreadEffect(k, esp);
    NewProcessEffect(k, esp);
  }

  /** Every step moves every thread and every process along an edge of its state machine: ZOMBIE
      and TERMINATED are never left, a BLOCKED thread only becomes READY. */
  lemma StepMoves(s: Sys, e: Event)
    requires Inv(s) && Enabled(s, e)
    ensures Moves(s.k, Step(s, e).k)
  {
    hide QueueInv;
    hide Tables;
    hide Ready;
    hide Moves;
    hide Quits;
    hide LockBody;
    hide WaitBody;
    hide ExitBody;
    hide KillBody;
    hide ProcessExitBody;
    InvTables(s);
    match e
    case Tick(esp) => InvReady(s); QuitMoves(s.k, (s, true), esp);
    case CallLock(m, esp) => LockReady(s, m); LockQuits(s, m); QuitMoves(s.k, LockBody(s, m), esp);
    case CallUnlock(m) => WakeMoves(s.k, Unlock(s.mutexes[m], s.k.thread).1);
    case CallWait(j, esp) => WaitReady(s, j); WaitQuits(s, j); QuitMoves(s.k, WaitBody(s, j), esp);
    case CallSignal(j) => WakeMoves(s.k, Signal(s.sems[j]).1);
    case InitMutex(m) => WakeMoves(s.k, Null);
    case InitSem(j, value) => WakeMoves(s.k, Null);
    case NewThread(esp) => CreateMoves(s.k, esp);
    case ThreadExits(esp) => ExitReady(s); ExitQuits(s); QuitMoves(s.k, ExitBody(s), esp);
    case NewProcess(esp) => CreateMoves(s.k, esp);
    case KillProcess(pid, esp) => KillReady(s, pid); KillQuits(s, pid); QuitMoves(s.k, KillBody(s, pid), esp);
    case ProcessExits(esp) => ProcessExitReady(s); ProcessExitQuits(s); QuitMoves(s.k, ProcessExitBody(s), esp);
  }

  lemma InvReady(s: Sys)
    requires Inv(s)
    ensures Ready((s, true)) && Quits(s.k, s.k)
  {
    hide ThreadTable;
    hide ProcTable;
    TableSizes(s.k);
  }

  predicate Dead(k: Kernel, t: nat) {
    t < |k.threads| && k.threads[t].state == Terminated
  }

  lemma YieldBuries(r: (Sys, bool), esp: nat, t: nat)
    requires Ready(r)
    ensures Dead(MaybeYield(r, esp).k, t) <==> Dead(r.0.k, t)
  {
    hide QueueInv;
    hide Tables;
    hide Irq;
    hide Settled;
    hide OnlyCurrentRuns;
    hide ShellAlive;
    if r.1 {
      IrqStates(r.0.k, esp);
    }
  }

  lemma BodiesSpare(s: Sys, m: nat, j: nat, pid: nat, t: nat)
    requires Inv(s) && Sized(s) && Tables(s.k)
    ensures m < |s.mutexes| && Dead(LockBody(s, m).0.k, t) ==> Dead(s.k, t)
    ensures j < |s.sems| && Dead(WaitBody(s, j).0.k, t) ==> Dead(s.k, t)
    ensures Dead(KillBody(s, pid).0.k, t) ==> Dead(s.k, t)
    ensures Dead(ProcessExitBody(s).0.k, t) ==> Dead(s.k, t)
    ensures Dead(ExitBody(s).0.k, t) <==> Dead(s.k, t) || s.k.thread == To(t)
  {
    hide Inv;
    hide Tables;
    hide ProcFind;
    CurrentInRange(s.k);
  }

  lemma WakeSpares(k: Kernel, woken: Ptr, t: nat)
    ensures Dead(Wake(k, woken), t) ==> Dead(k, t)
  {
  }

  /** A thread is TERMINATED after an event if and only if it was before, or it is the caller of
      thread_exit. */
  lemma OnlyExitKills(s: Sys, e: Event, t: nat)
    requires Inv(s) && Enabled(s, e)
    ensures Dead(Step(s, e).k, t) <==> Dead(s.k, t) || (e.ThreadExits? && s.k.thread == To(t))
  {
    hide QueueInv;
    hide Tables;
    hide Ready;
    hide Moves;
    hide Dead;
    hide LockBody;
    hide WaitBody;
    hide ExitBody;
    hide KillBody;
    hide ProcessExitBody;
    InvTables(s);
    StepMoves(s, e);
    DeadMoves(s.k, Step(s, e).k, t);
    match e
    case Tick(esp) => InvReady(s); YieldBuries((s, true), esp, t);
    case CallLock(m, esp) => BodiesSpare(s, m, 0, 0, t); LockReady(s, m); YieldBuries(LockBody(s, m), esp, t);
    case CallUnlock(m) => WakeSpares(s.k, Unlock(s.mutexes[m], s.k.thread).1, t);
    case CallWait(j, esp) => BodiesSpare(s, 0, j, 0, t); WaitReady(s, j); YieldBuries(WaitBody(s, j), esp, t);
    case CallSignal(j) => WakeSpares(s.k, Signal(s.sems[j]).1, t);
    case InitMutex(m) =>
    case InitSem(j, value) =>
    case NewThread(esp) => CreatedNotDead(s.k, esp, t);
    case ThreadExits(esp) => BodiesSpare(s, 0, 0, 0, t); ExitReady(s); YieldBuries(ExitBody(s), esp, t);
    case NewProcess(esp) => CreatedNotDead(s.k, esp, t);
    case KillProcess(pid, esp) => BodiesSpare(s, 0, 0, pid, t); KillReady(s, pid); YieldBuries(KillBody(s, pid), esp, t);
    case ProcessExits(esp) =>
      BodiesSpare(s, 0, 0, 0, t); ProcessExitReady(s); YieldBuries(ProcessExitBody(s), esp, t);
  }

  lemma DeadMoves(k: Kernel, k1: Kernel, t: nat)
    requires Moves(k, k1)
    ensures Dead(k, t) ==> Dead(k1, t)
  {
  }

  lemma CreatedNotDead(k: Kernel, esp: nat, t: nat)
    requires Tables(k)
    ensures Dead(CreateThread(k, esp).0, t) ==> Dead(k, t)
    ensures Dead(CreateProcess(k, esp).0, t) ==> Dead(k, t)
  {
    hide CreateThread;
    hide CreateProcess;
    TableSizes(k);
    NewThreadEffect(k, esp);
    NewProcessEffect(k, esp);
  }

  lemma {:induction false} DeadStayDead(s: Sys, es: seq<Event>)
    requires Inv(s) && CanRun(s, es)
    ensures forall t: nat :: t < MAX_THREADS && s.k.threads[t].state == Terminated ==>
      Run(s, es).k.threads[t].state == Terminated
    ensures NP(s.k) <= NP(Run(s, es).k) <= MAX_PROCESSES
    ensures forall p: nat :: p < NP(s.k) && s.k.procs[p].state == Zombie ==> Run(s, es).k.procs[p].state == Zombie
    decreases |es|
  {
    hide Inv;
    hide Enabled;
    hide Step;
    InvTables(s);
    TableSizes(s.k);
    InvTables(Run(s, es));
    TableSizes(Run(s, es).k);
    if es != [] {
      StepInv(s, es[0]);
      StepMoves(s, es[0]);
      DeadStayDead(Step(s, es[0]), es[1..]);
    }
  }

  /** A process that was killed or has exited. */
  predicate Gone(k: Kernel, p: nat) {
    p < NP(k) && p < |k.procs| && k.procs[p].state == Zombie
  }

  lemma YieldSpares(r: (Sys, bool), esp: nat, p: nat)
    requires Ready(r)
    ensures Gone(MaybeYield(r, esp).k, p) <==> Gone(r.0.k, p)
  {
    hide QueueInv;
    hide Tables;
    hide Irq;
    if r.1 {
      IrqStates(r.0.k, esp);
    }
  }

  lemma BodiesLeaveProcs(s: Sys, m: nat, j: nat, p: nat)
    requires Sized(s) && Tables(s.k)
    ensures m < |s.mutexes| ==> (Gone(LockBody(s, m).0.k, p) <==> Gone(s.k, p))
    ensures j < |s.sems| ==> (Gone(WaitBody(s, j).0.k, p) <==> Gone(s.k, p))
    ensures Gone(ExitBody(s).0.k, p) <==> Gone(s.k, p)
  {
    hide Tables;
  }

  lemma BuryGone(k: Kernel, q: nat, p: nat)
    requires q < |k.procs| && NP(k) <= |k.procs|
    ensures Gone(Bury(k, q), p) <==> Gone(k, p) || (p == q && p < NP(k))
  {
  }

  lemma KillBuries(s: Sys, pid: nat, p: nat)
    requires Inv(s) && Sized(s) && Tables(s.k)
    ensures Gone(KillBody(s, pid).0.k, p) <==> Gone(s.k, p) || (0 < p < NP(s.k) && pid == p + 1)
  {
    hide QueueInv;
    hide ThreadTable;
    hide Gone;
    hide Bury;
    hide ProcFind;
    TableSizes(s.k);
    ProcFindSlot(s.k, pid);
    if 1 < pid <= NP(s.k) {
      BuryGone(s.k, pid - 1, p);
    } else if pid == 0 && NP(s.k) < MAX_PROCESSES {
      BuryGone(s.k, NP(s.k), p);
    }
  }

  lemma ExitBuries(s: Sys, p: nat)
    requires Sized(s) && Tables(s.k)
    ensures Gone(ProcessExitBody(s).0.k, p) <==> Gone(s.k, p) || s.k.proc == To(p)
  {
    hide Gone;
    hide Bury;
    CurrentInRange(s.k);
    TableSizes(s.k);
    if s.k.proc.To? {
      BuryGone(s.k, s.k.proc.slot, p);
    }
  }

  lemma WakeBuries(k: Kernel, woken: Ptr, p: nat)
    ensures Gone(Wake(k, woken), p) <==> Gone(k, p)
  {
  }

  /** A process is ZOMBIE after an event if and only if it was before, or it is the process that
      calls proc_exit, or the one, PID 1 apart, that proc_kill names. */
  lemma OnlyKillBuries(s: Sys, e: Event, p: nat)
    requires Inv(s) && Enabled(s, e) && p < NP(s.k)
    ensures Gone(Step(s, e).k, p) <==>
      || Gone(s.k, p)
      || (e.ProcessExits? && s.k.proc == To(p))
      || (e.KillProcess? && p != 0 && e.pid == p + 1)
  {
    hide QueueInv;
    hide Tables;
    hide Ready;
    hide Gone;
    hide LockBody;
    hide WaitBody;
    hide ExitBody;
    hide KillBody;
    hide ProcessExitBody;
    InvTables(s);
    match e
    case Tick(esp) => InvReady(s); YieldSpares((s, true), esp, p);
    case CallLock(m, esp) => BodiesLeaveProcs(s, m, 0, p); LockReady(s, m); YieldSpares(LockBody(s, m), esp, p);
    case CallUnlock(m) => WakeBuries(s.k, Unlock(s.mutexes[m], s.k.thread).1, p);
    case CallWait(j, esp) => BodiesLeaveProcs(s, 0, j, p); WaitReady(s, j); YieldSpares(WaitBody(s, j), esp, p);
    case CallSignal(j) => WakeBuries(s.k, Signal(s.sems[j]).1, p);
    case InitMutex(m) =>
    case InitSem(j, value) =>
    case NewThread(esp) => CreatedNotGone(s.k, esp, p);
    case ThreadExits(esp) => BodiesLeaveProcs(s, 0, 0, p); ExitReady(s); YieldSpares(ExitBody(s), esp, p);
    case NewProcess(esp) => CreatedNotGone(s.k, esp, p);
    case KillProcess(pid, esp) => KillBuries(s, pid, p); KillReady(s, pid); YieldSpares(KillBody(s, pid), esp, p);
    case ProcessExits(esp) =>
      ExitBuries(s, p); ProcessExitReady(s); YieldSpares(ProcessExitBody(s), esp, p);
  }

  lemma CreatedNotGone(k: Kernel, esp: nat, p: nat)
    requires Tables(k) && p < NP(k)
    ensures Gone(CreateThread(k, esp).0, p) <==> Gone(k, p)
    ensures Gone(CreateProcess(k, esp).0, p) <==> Gone(k, p)
  {
    hide CreateThread;
    hide CreateProcess;
    TableSizes(k);
    NewThreadEffect(k, esp);
    CreateProcessTables(k, esp);
    NewProcessEffect(k, esp);
  }

  /** The context the CPU belongs to. */
  predicate ThreadIsCurrent(k: Kernel, t: nat) {
    k.thread == To(t) || (k.kind == Thread && k.curThread == To(t))
  }

  predicate ProcIsCurrent(k: Kernel, p: nat) {
    k.kind == Process && (k.proc == To(p) || k.curProc == To(p))
  }

  lemma DeadNotCurrent(s: Sys)
    requires Inv(s)
    ensures forall t: nat :: Dead(s.k, t) ==> !ThreadIsCurrent(s.k, t)
    ensures forall p: nat :: Gone(s.k, p) ==> !ProcIsCurrent(s.k, p)
  {
    hide QueueInv;
    hide ThreadTable;
    hide ProcTable;
  }

  /** thread_exit never returns: its caller is TERMINATED, and never the current context again, over
      every run that goes on from there. */
  lemma ExitedNeverRuns(s: Sys, es: seq<Event>, t: nat)
    requires Inv(s) && CanRun(s, es) && es != [] && es[0].ThreadExits? && s.k.thread == To(t)
    ensures Dead(Run(s, es).k, t) && !ThreadIsCurrent(Run(s, es).k, t)
  {
    hide Inv;
    hide Enabled;
    hide Step;
    InvTables(s);
    StepInv(s, es[0]);
    OnlyExitKills(s, es[0], t);
    InvTables(Step(s, es[0]));
    InvTables(Run(s, es));
    TableSizes(Step(s, es[0]).k);
    TableSizes(Run(s, es).k);
    DeadStayDead(Step(s, es[0]), es[1..]);
    DeadNotCurrent(Run(s, es));
  }

  /** The same of proc_exit, and of the process that proc_kill names. */
  lemma KilledNeverRuns(s: Sys, es: seq<Event>, p: nat)
    requires Inv(s) && CanRun(s, es) && es != [] && p < NP(s.k)
    requires (es[0].ProcessExits? && s.k.proc == To(p)) || (es[0].KillProcess? && p != 0 && es[0].pid == p + 1)
    ensures Gone(Run(s, es).k, p) && !ProcIsCurrent(Run(s, es).k, p)
  {
    hide Inv;
    hide Enabled;
    hide Step;
    InvTables(s);
    StepInv(s, es[0]);
    OnlyKillBuries(s, es[0], p);
    InvTables(Step(s, es[0]));
    InvTables(Run(s, es));
    TableSizes(Step(s, es[0]).k);
    TableSizes(Run(s, es).k);
    DeadStayDead(Step(s, es[0]), es[1..]);
    DeadNotCurrent(Run(s, es));
  }

  // ---- Who gives the CPU away ----------------------------------------------------------

  lemma YieldTicks(r: (Sys, bool), esp: nat)
    requires Tables(r.0.k)
    ensures MaybeYield(r, esp).k.ticks == r.0.k.ticks + if r.1 then 1 else 0
  {
    hide Tables;
    hide Irq;
    if r.1 {
      IrqCharges(r.0.k, esp);
    }
  }

  lemma LockYields(s: Sys, m: nat)
    requires Sized(s) && Tables(s.k) && m < |s.mutexes|
    ensures var (s1, blocks) := LockBody(s, m);
      && s1.k.ticks == s.k.ticks
      && (blocks <==> s.k.thread.To? && s.mutexes[m].locked && s.mutexes[m].owner != s.k.thread)
  {
  }

  lemma WaitYields(s: Sys, j: nat)
    requires Sized(s) && Tables(s.k) && j < |s.sems|
    ensures var (s1, blocks) := WaitBody(s, j);
      s1.k.ticks == s.k.ticks && (blocks <==> s.k.thread.To? && s.sems[j].value <= 0)
  {
  }

  lemma ExitYields(s: Sys, pid: nat)
    requires Sized(s) && Tables(s.k)
    ensures ExitBody(s).0.k.ticks == s.k.ticks && (ExitBody(s).1 <==> s.k.thread.To?)
    ensures ProcessExitBody(s).0.k.ticks == s.k.ticks && (ProcessExitBody(s).1 <==> s.k.proc.To?)
    ensures KillBody(s, pid).0.k.ticks == s.k.ticks && (KillBody(s, pid).1 <==> pid >= 2 && s.k.proc == To(pid - 1))
  {
    CurrentInRange(s.k);
    ProcFindSlot(s.k, pid);
  }

  lemma CreateTicks(k: Kernel, esp: nat)
    requires Tables(k)
    ensures CreateThread(k, esp).0.ticks == k.ticks && CreateProcess(k, esp).0.ticks == k.ticks
  {
    hide Tables;
    hide After;
  }

  /** Exactly when a call gives the CPU away: a thread that must wait for a mutex or a semaphore, a
      thread or process that exits, and whoever kills its own process. */
  lemma YieldsExactly(s: Sys, e: Event)
    requires Inv(s) && Enabled(s, e)
    ensures Step(s, e).k.ticks == s.k.ticks + (if (
      match e
      case Tick(_) => true
      case CallLock(m, _) => s.k.thread.To? && s.mutexes[m].locked && s.mutexes[m].owner != s.k.thread
      case CallWait(j, _) => s.k.thread.To? && s.sems[j].value == 0
      case ThreadExits(_) => s.k.thread.To?
      case ProcessExits(_) => s.k.proc.To?
      case KillProcess(pid, _) => pid >= 2 && s.k.proc == To(pid - 1)
      case _ => false) then 1 else 0)
  {
    hide QueueInv;
    hide Tables;
    hide ShellAlive;
    hide Settled;
    hide CreateThread;
    hide CreateProcess;
    hide MaybeYield;
    hide LockBody;
    hide WaitBody;
    hide ExitBody;
    hide KillBody;
    hide ProcessExitBody;
    InvTables(s);
    ValuesNatural(s);
    match e
    case Tick(esp) => YieldTicks((s, true), esp);
    case CallLock(m, esp) => LockYields(s, m); YieldTicks(LockBody(s, m), esp);
    case CallUnlock(m) =>
    case CallWait(j, esp) => WaitYields(s, j); YieldTicks(WaitBody(s, j), esp);
    case CallSignal(j) =>
    case InitMutex(m) =>
    case InitSem(j, value) =>
    case NewThread(esp) => CreateTicks(s.k, esp);
    case ThreadExits(esp) => ExitYields(s, 0); YieldTicks(ExitBody(s), esp);
    case NewProcess(esp) => CreateTicks(s.k, esp);
    case KillProcess(pid, esp) => ExitYields(s, pid); YieldTicks(KillBody(s, pid), esp);
    case ProcessExits(esp) => ExitYields(s, 0); YieldTicks(ProcessExitBody(s), esp);
  }

  lemma ValuesNatural(s: Sys)
    requires Inv(s)
    ensures forall j :: 0 <= j < |s.sems| ==> s.sems[j].value >= 0
  {
    hide KernelInv;
    hide WaitInv;
    hide OwnerInv;
  }

  // ---- Waking --------------------------------------------------------------------------

  /** The event gives thread t what its last call waits for. */
  predicate Grants(s: Sys, e: Event, t: nat)
    requires Sized(s) && t < |s.calls|
  {
    match s.calls[t]
    case Idle => false
    case InLock(m) =>
      && e == CallUnlock(m) && m < |s.mutexes|
      && s.mutexes[m].queue != [] && s.mutexes[m].queue[0] == t && s.mutexes[m].owner == s.k.thread && s.k.thread.To?
    case InWait(j) =>
      e == CallSignal(j) && j < |s.sems| && s.sems[j].queue != [] && s.sems[j].queue[0] == t
  }

  /** A blocked thread is woken exactly when the owner hands it the mutex it waits for, or a signal
      reaches the semaphore it waits for, and it is first in that queue. */
  lemma WokenIff(s: Sys, e: Event, t: nat)
    requires Inv(s) && Enabled(s, e) && Blocked(s.k, t) && t < MAX_THREADS
    ensures !Blocked(Step(s, e).k, t) <==> Grants(s, e, t)
  {
    hide Tables;
    hide Ready;
    hide Moves;
    hide Quits;
    hide LockBody;
    hide WaitBody;
    hide ExitBody;
    hide KillBody;
    hide ProcessExitBody;
    hide UnlockBody;
    hide SignalBody;
    hide CreateThread;
    hide CreateProcess;
    hide Irq;
    InvTables(s);
    assert Waits(s, t, s.calls[t]);
    match e
    case Tick(esp) => InvReady(s); QuitMoves(s.k, (s, true), esp);
    case CallLock(m, esp) => LockReady(s, m); LockQuits(s, m); QuitMoves(s.k, LockBody(s, m), esp);
    case CallUnlock(m) => UnlockWakes(s, m, t);
    case CallWait(j, esp) => WaitReady(s, j); WaitQuits(s, j); QuitMoves(s.k, WaitBody(s, j), esp);
    case CallSignal(j) => SignalWakes(s, j, t);
    case InitMutex(m) =>
    case InitSem(j, value) =>
    case NewThread(esp) => NewThreadKernel(s.k, esp);
    case ThreadExits(esp) => ExitReady(s); ExitQuits(s); QuitMoves(s.k, ExitBody(s), esp);
    case NewProcess(esp) => NewProcessKernel(s.k, esp);
    case KillProcess(pid, esp) => KillReady(s, pid); KillQuits(s, pid); QuitMoves(s.k, KillBody(s, pid), esp);
    case ProcessExits(esp) => ProcessExitReady(s); ProcessExitQuits(s); QuitMoves(s.k, ProcessExitBody(s), esp);
  }

  lemma UnlockWakes(s: Sys, m: nat, t: nat)
    requires Inv(s) && m < |s.mutexes| && Blocked(s.k, t) && t < MAX_THREADS
    ensures !Blocked(UnlockBody(s, m).k, t) <==> Grants(s, CallUnlock(m), t)
  {
    hide Tables;
    hide UnlockBody;
    UnlockShape(s, m);
    assert Waits(s, t, s.calls[t]);
    if s.mutexes[m].queue != [] {
      assert Waits(s, s.mutexes[m].queue[0], InLock(m));
    }
  }

  lemma SignalWakes(s: Sys, j: nat, t: nat)
    requires Inv(s) && j < |s.sems| && Blocked(s.k, t) && t < MAX_THREADS
    ensures !Blocked(SignalBody(s, j).k, t) <==> Grants(s, CallSignal(j), t)
  {
    hide Tables;
    hide SignalBody;
    SignalShape(s, j);
    assert Waits(s, t, s.calls[t]);
    if s.sems[j].queue != [] {
      assert Waits(s, s.sems[j].queue[0], InWait(j));
    }
  }

  // ---- Histories only grow -------------------------------------------------------------

  predicate Grew(g: Log, g1: Log) {
    g.asked <= g1.asked && g.granted <= g1.granted && g.signals <= g1.signals
  }

  lemma StepMutexLogs(s: Sys, e: Event, m: nat)
    requires Inv(s) && Enabled(s, e)
    ensures var s1 := Step(s, e);
      && |s1.mutexes| == |s.mutexes| && Sized(s1)
      && (m < |s.mutexes| && e != InitMutex(m) ==> Grew(s.mlogs[m], s1.mlogs[m]))
  {
    hide Inv;
    hide Lock;
    hide Unlock;
    hide Wait;
    hide Signal;
    hide CreateThread;
    hide CreateProcess;
    hide ExitThread;
    hide ExitProcess;
    hide Kill;
    hide SetState;
    hide Unblock;
    hide Tables;
    hide ProcFind;
    hide Irq;
    hide WaitLog;
    hide SignalLog;
    InvTables(s);
  }

  lemma StepSemLogs(s: Sys, e: Event, j: nat)
    requires Inv(s) && Enabled(s, e)
    ensures var s1 := Step(s, e);
      && |s1.sems| == |s.sems| && Sized(s1)
      && (j < |s.sems| && !(e.InitSem? && e.j == j) ==> Grew(s.slogs[j], s1.slogs[j]) && s1.inits[j] == s.inits[j])
  {
    hide Inv;
    hide Lock;
    hide Unlock;
    hide Wait;
    hide Signal;
    hide CreateThread;
    hide CreateProcess;
    hide ExitThread;
    hide ExitProcess;
    hide Kill;
    hide SetState;
    hide Unblock;
    hide Tables;
    hide ProcFind;
    hide Irq;
    hide LockLog;
    hide ThreadTable;
    hide ProcTable;
    hide MutexOk;
    hide SemOk;
    InvTables(s);
  }

  predicate Resets(e: Event, m: nat) {
    e == InitMutex(m)
  }

  predicate ResetsSem(e: Event, j: nat) {
    e.InitSem? && e.j == j
  }

  lemma {:induction false} RunLogs(s: Sys, es: seq<Event>, m: nat, j: nat)
    requires Inv(s) && CanRun(s, es)
    ensures var s1 := Run(s, es);
      && |s1.mutexes| == |s.mutexes| && |s1.sems| == |s.sems| && Sized(s) && Sized(s1)
      && (m < |s.mutexes| && (forall i :: 0 <= i < |es| ==> !Resets(es[i], m)) ==> Grew(s.mlogs[m], s1.mlogs[m]))
      && (j < |s.sems| && (forall i :: 0 <= i < |es| ==> !ResetsSem(es[i], j)) ==>
        Grew(s.slogs[j], s1.slogs[j]) && s1.inits[j] == s.inits[j])
    decreases |es|
  {
    hide Inv;
    hide Enabled;
    hide Step;
    InvTables(s);
    if es != [] {
      StepInv(s, es[0]);
      StepMutexLogs(s, es[0], m);
      StepSemLogs(s, es[0], j);
      assert !Resets(es[0], m) ==> !(es[0] == InitMutex(m));
      RunLogs(Step(s, es[0]), es[1..], m, j);
    }
  }

  // ---- The theorems over every run -----------------------------------------------------

  /** Some run leads here from the state kernel_main sets up. */
  ghost predicate Reachable(s: Sys) {
    exists s0: Sys, esp: nat, es: seq<Event> :: Initial(s0, esp) && Inv(s0) && CanRun(s0, es) && Run(s0, es) == s
  }

  lemma ReachableInv(s: Sys)
    requires Reachable(s)
    ensures Inv(s)
  {
  }

  /** Who has called lock(m) and not unlock(m) since, after one more event. */
  function CallersAfter(s: Sys, e: Event, m: nat, callers: set<nat>): set<nat> {
    var me := if s.k.thread.To? then {s.k.thread.slot} else {};
    match e
    case CallLock(n, _) => if n == m then callers + me else callers
    case CallUnlock(n) => if n == m then callers - me else callers
    case InitMutex(n) => if n == m then {} else callers
    case _ => callers
  }

  ghost function Callers(s: Sys, es: seq<Event>, m: nat, callers: set<nat>): set<nat>
    requires Inv(s) && CanRun(s, es)
    decreases |es|
  {
    if es == [] then callers
    else StepInv(s, es[0]); Callers(Step(s, es[0]), es[1..], m, CallersAfter(s, es[0], m, callers))
  }

  /** The callers are the owner and those who wait for it. */
  ghost predicate CallersKnown(s: Sys, m: nat, callers: set<nat>) {
    m < |s.mutexes| && forall t: nat :: t in callers <==> t in s.mutexes[m].queue || s.mutexes[m].owner == To(t)
  }

  /** What each event does to the mutex. */
  lemma StepMutex(s: Sys, e: Event, m: nat)
    requires Inv(s) && Enabled(s, e) && m < |s.mutexes|
    ensures var s1 := Step(s, e); var x := s.mutexes[m];
      && |s1.mutexes| == |s.mutexes|
      && s1.mutexes[m] ==
        if e.CallLock? && e.m == m then Lock(x, s.k.thread).0
        else if e == CallUnlock(m) then Unlock(x, s.k.thread).0
        else if e == InitMutex(m) then FREE else x
  {
    hide Inv;
    hide Lock;
    hide Unlock;
    hide Wait;
    hide WaitLog;
    hide LockLog;
    hide GrantLog;
    hide SignalLog;
    hide Signal;
    hide CreateThread;
    hide CreateProcess;
    hide ExitThread;
    hide ExitProcess;
    hide Kill;
    hide SetState;
    hide Unblock;
    hide Tables;
    hide Irq;
    InvTables(s);
  }

  /** The same in plain terms: a free mutex goes to the thread that locks it, its owner may lock it
      again, others join the queue; its owner hands it to the first in the queue, or frees it. A
      caller that is no thread changes nothing. */
  lemma MutexAfter(s: Sys, e: Event, m: nat)
    requires Inv(s) && Enabled(s, e) && m < |s.mutexes|
    ensures var x := s.mutexes[m]; var c := s.k.thread;
      m < |Step(s, e).mutexes| && var x1 := Step(s, e).mutexes[m];
      && (e.CallLock? && e.m == m && c.To? && x.owner == Null ==> x1 == Mutex(true, c, []))
      && (e.CallLock? && e.m == m && c.To? && x.owner.To? && x.owner != c ==>
            x1 == Mutex(true, x.owner, x.queue + [c.slot]))
      && (e == CallUnlock(m) && c.To? && x.owner == c ==>
            x1 == if x.queue == [] then Mutex(false, Null, []) else Mutex(true, To(x.queue[0]), x.queue[1..]))
      && (e == InitMutex(m) ==> x1 == Mutex(false, Null, []))
      && (c == Null || x.owner == c ==> e.CallLock? ==> x1 == x)
      && (c == Null || x.owner != c ==> e.CallUnlock? ==> x1 == x)
      && (!(e.CallLock? && e.m == m) && e != CallUnlock(m) && e != InitMutex(m) ==> x1 == x)
  {
    hide Tables;
    hide Step;
    hide WaitInv;
    hide OwnerInv;
    StepMutex(s, e, m);
  }

  lemma StepSem(s: Sys, e: Event, j: nat)
    requires Inv(s) && Enabled(s, e) && j < |s.sems|
    ensures var s1 := Step(s, e); var x := s.sems[j];
      && |s1.sems| == |s.sems|
      && s1.sems[j] ==
        if e.CallWait? && e.j == j then Wait(x, s.k.thread).0
        else if e == CallSignal(j) then Signal(x).0
        else if e.InitSem? && e.j == j then Sem(e.value, []) else x
  {
    hide Inv;
    hide Lock;
    hide Unlock;
    hide Wait;
    hide WaitLog;
    hide LockLog;
    hide GrantLog;
    hide SignalLog;
    hide Signal;
    hide CreateThread;
    hide CreateProcess;
    hide ExitThread;
    hide ExitProcess;
    hide Kill;
    hide SetState;
    hide Unblock;
    hide Tables;
    hide Irq;
    InvTables(s);
  }

  /** A wait takes one from a positive value or joins the queue; a signal releases the first in the
      queue or adds one, whoever makes it; a wait by no thread changes nothing. */
  lemma SemAfter(s: Sys, e: Event, j: nat)
    requires Inv(s) && Enabled(s, e) && j < |s.sems|
    ensures var x := s.sems[j]; var c := s.k.thread;
      j < |Step(s, e).sems| && var x1 := Step(s, e).sems[j];
      && (e.CallWait? && e.j == j && c.To? ==>
            x1 == if x.value > 0 then Sem(x.value - 1, []) else Sem(0, x.queue + [c.slot]))
      && (e == CallSignal(j) ==> x1 == if x.queue == [] then Sem(x.value + 1, []) else Sem(0, x.queue[1..]))
      && (e.InitSem? && e.j == j ==> x1 == Sem(e.value, []))
      && (e.CallWait? && c == Null ==> x1 == x)
      && (!(e.CallWait? && e.j == j) && e != CallSignal(j) && !(e.InitSem? && e.j == j) ==> x1 == x)
  {
    hide Tables;
    hide Step;
    hide WaitInv;
    hide OwnerInv;
    StepSem(s, e, j);
  }

  lemma CallersStep(s: Sys, e: Event, m: nat, callers: set<nat>)
    requires Inv(s) && Enabled(s, e) && CallersKnown(s, m, callers)
    ensures CallersKnown(Step(s, e), m, CallersAfter(s, e, m, callers))
  {
    hide Tables;
    hide Step;
    StepMutex(s, e, m);
    RunningNotWaiting(s, InLock(m));
    LockOk(s.mutexes[m], s.k.thread);
    UnlockOk(s.mutexes[m], s.k.thread);
  }

  lemma {:induction false} CallersThroughout(s: Sys, es: seq<Event>, m: nat, callers: set<nat>)
    requires Inv(s) && CanRun(s, es) && CallersKnown(s, m, callers)
    ensures CallersKnown(Run(s, es), m, Callers(s, es, m, callers))
    decreases |es|
  {
    hide Inv;
    hide Enabled;
    hide Step;
    hide CallersKnown;
    InvTables(s);
    if es != [] {
      StepInv(s, es[0]);
      CallersStep(s, es[0], m, callers);
      CallersThroughout(Step(s, es[0]), es[1..], m, CallersAfter(s, es[0], m, callers));
    }
  }

  /** Mutual exclusion: over every run, of all threads that have called lock(m) and not unlock(m)
      since, whatever else they called in between, exactly the owner is past the lock; the others
      wait in its queue, BLOCKED. Locked means owned, and nobody waits for a free mutex. */
  lemma MutualExclusion(s0: Sys, esp: nat, es: seq<Event>, m: nat)
    requires Initial(s0, esp) && m < |s0.mutexes|
    ensures Inv(s0)
    ensures CanRun(s0, es) ==> var s := Run(s0, es); var callers := Callers(s0, es, m, {});
      m < |s.mutexes| && var x := s.mutexes[m];
        && (forall t: nat :: t in callers && !Blocked(s.k, t) ==> x.owner == To(t))
        && (forall t: nat :: x.owner == To(t) <==> t in callers && t !in x.queue)
        && (forall t: nat :: t in x.queue ==> t in callers && Blocked(s.k, t))
        && (x.locked <==> x.owner.To?) && (x.queue != [] ==> x.locked)
  {
    hide Tables;
    InitialInv(s0, esp);
    if CanRun(s0, es) {
      CallersThroughout(s0, es, m, {});
      var s := Run(s0, es);
      forall t: nat | t in s.mutexes[m].queue
        ensures Blocked(s.k, t)
      {
        assert Waits(s, t, InLock(m));
      }
    }
  }

  /** Ownership ends only by the owner's own unlock (or a new initialisation), whatever else the
      owner and the other threads do meanwhile. */
  lemma OwnerKeepsMutex(s: Sys, e: Event, m: nat)
    requires Inv(s) && Enabled(s, e) && m < |s.mutexes| && s.mutexes[m].locked
    requires e != InitMutex(m) && !(e == CallUnlock(m) && s.mutexes[m].owner == s.k.thread)
    ensures var s1 := Step(s, e);
      && |s1.mutexes| == |s.mutexes| && s1.mutexes[m].locked && s1.mutexes[m].owner == s.mutexes[m].owner
      && s.mutexes[m].queue <= s1.mutexes[m].queue
  {
    hide Inv;
    hide Step;
    StepMutex(s, e, m);
  }

  /** First come, first served: between two initialisations the grants of a mutex repeat, in order,
      the requests made of it, its owner is the last one granted, and the rest of the requests is
      its queue. */
  lemma MutexFirstComeFirstServed(s: Sys, es: seq<Event>, m: nat)
    requires Inv(s) && CanRun(s, es) && m < |s.mutexes|
    requires forall i :: 0 <= i < |es| ==> !Resets(es[i], m)
    ensures var s1 := Run(s, es);
      && m < |s1.mutexes| && Sized(s1) && var g := s1.mlogs[m];
      && s.mlogs[m].asked <= g.asked && s.mlogs[m].granted <= g.granted <= g.asked
      && g.asked[|g.granted|..] == s1.mutexes[m].queue
      && (s1.mutexes[m].locked ==> g.granted != [] && s1.mutexes[m].owner == To(g.granted[|g.granted| - 1]))
  {
    hide WaitInv;
    hide OwnerInv;
    hide CanRun;
    hide Run;
    hide Tables;
    RunLogs(s, es, m, 0);
  }

  /** The semaphore law: value = initial value + signals - grants in every reachable state, never
      negative, positive only with nobody waiting; and grants repeat the requests in order. */
  lemma SemaphoreConservation(s: Sys, es: seq<Event>, j: nat)
    requires Inv(s) && CanRun(s, es) && j < |s.sems|
    requires forall i :: 0 <= i < |es| ==> !ResetsSem(es[i], j)
    ensures var s1 := Run(s, es);
      && j < |s1.sems| && Sized(s1) && var g := s1.slogs[j];
      && s1.sems[j].value == s.inits[j] + g.signals - |g.granted| >= 0
      && (s1.sems[j].value > 0 ==> s1.sems[j].queue == [])
      && s.slogs[j].asked <= g.asked && s.slogs[j].granted <= g.granted <= g.asked
      && g.asked[|g.granted|..] == s1.sems[j].queue
  {
    hide WaitInv;
    hide OwnerInv;
    hide CanRun;
    hide Run;
    hide Tables;
    RunLogs(s, es, 0, j);
  }

  /** Place i of the wait queue that the call c names holds thread t. */
  predicate At(s: Sys, t: nat, c: Call, i: nat) {
    match c
    case Idle => false
    case InLock(m) => m < |s.mutexes| && i < |s.mutexes[m].queue| && s.mutexes[m].queue[i] == t
    case InWait(j) => j < |s.sems| && i < |s.sems[j].queue| && s.sems[j].queue[i] == t
  }

  lemma PlaceOf(s: Sys, t: nat, c: Call) returns (i: nat)
    requires Waits(s, t, c)
    ensures At(s, t, c, i)
  {
    match c
    case InLock(m) => i :| 0 <= i < |s.mutexes[m].queue| && s.mutexes[m].queue[i] == t;
    case InWait(j) => i :| 0 <= i < |s.sems[j].queue| && s.sems[j].queue[i] == t;
  }

  lemma OnePlace(s: Sys, t: nat, c: Call, i: nat, l: nat)
    requires QueueInv(s) && At(s, t, c, i) && At(s, t, c, l)
    ensures i == l
  {
    hide WaitInv;
    hide OwnerInv;
  }

  /** Across all mutexes and semaphores, a thread is BLOCKED if and only if it stands in exactly one
      queue, exactly once. */
  lemma BlockedIffQueuedOnce(s: Sys, t: nat)
    requires Reachable(s)
    ensures Blocked(s.k, t) <==> exists c: Call, i: nat :: At(s, t, c, i)
    ensures forall c: Call, i: nat, d: Call, l: nat :: At(s, t, c, i) && At(s, t, d, l) ==> c == d && i == l
  {
    hide Tables;
    hide Objects;
    hide Reachable;
    ReachableInv(s);
    InvTables(s);
    TableSizes(s.k);
    if Blocked(s.k, t) {
      var i := PlaceOf(s, t, s.calls[t]);
    }
    forall c: Call, i: nat, d: Call, l: nat | At(s, t, c, i) && At(s, t, d, l)
      ensures Blocked(s.k, t) && c == d && i == l
    {
      assert Waits(s, t, c) && Waits(s, t, d);
      OnePlace(s, t, c, i, l);
    }
  }

  /** After the first tick exactly one context is RUNNING, and PID 1 can always run. */
  lemma ExactlyOneRunning(s: Sys)
    requires Reachable(s)
    ensures var k := s.k;
      && |k.threads| == MAX_THREADS && |k.procs| == MAX_PROCESSES
      && var ts := set t | 0 <= t < MAX_THREADS && k.threads[t].state == TRunning;
      && var ps := set p | 0 <= p < MAX_PROCESSES && k.procs[p].state == PRunning;
      && |ts| + |ps| == (if k.kind == Boot then 0 else 1)
      && (k.kind == Thread ==> k.thread.To? && ts == {k.thread.slot})
      && (k.kind == Process ==> k.proc.To? && ps == {k.proc.slot} && k.thread == Null)
      && (k.procs[0].state == PReady || k.procs[0].state == PRunning)
  {
    hide QueueInv;
    hide ThreadTable;
    hide ProcTable;
    ReachableInv(s);
    var k := s.k;
    TableSizes(k);
    var ts := set t | 0 <= t < MAX_THREADS && k.threads[t].state == TRunning;
    var ps := set p | 0 <= p < MAX_PROCESSES && k.procs[p].state == PRunning;
    match k.kind
    case Boot => assert ts == {} && ps == {};
    case Thread => assert ts == {k.thread.slot} && ps == {};
    case Process => assert ts == {} && ps == {k.proc.slot};
  }
}
