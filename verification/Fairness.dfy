/** Bounded waiting: however many entries join the rings meanwhile, a thread that stays READY is
    dispatched within 2 * 32 calls of scheduler_irq, and a process within 2 * 16. */
module Fairness {
  import opened Sched
  import opened Sync
  import opened System
  import opened Safety

  // ---- The potential -------------------------------------------------------------------

  /** Entries the scan meets before thread t, plus the free slots that may still come in between;
      counted twice, because threads and processes take turns. */
  function ThreadPotential(k: Kernel, t: nat): (d: nat)
    requires ThreadTable(k) && t < NT(k)
    ensures d < 2 * MAX_THREADS
  {
    2 * (Steps(Start(k.curThread, NT(k)), t, NT(k)) + MAX_THREADS - NT(k)) + if k.preferThread then 0 else 1
  }

  function ProcessPotential(k: Kernel, p: nat): (d: nat)
    requires ProcTable(k) && p < NP(k)
    ensures d < 2 * MAX_PROCESSES
  {
    2 * (Steps(Start(k.curProc, NP(k)), p, NP(k)) + MAX_PROCESSES - NP(k)) + if k.preferThread then 1 else 0
  }

  /** Passing entry c brings t closer by the steps up to c and one more. */
  lemma StepsPast(i: nat, c: nat, t: nat, n: nat)
    requires i < n && c < n && t < n && c != t && Steps(i, c, n) <= Steps(i, t, n)
    ensures Steps(After(c, n), t, n) < Steps(i, t, n)
  {
  }

  /** One more entry at the end of the ring is at most one step more, and one free slot less. */
  lemma StepsGrow(cur: Ptr, t: nat, n: nat)
    requires t < n && (cur.To? ==> cur.slot < n)
    ensures Steps(Start(cur, n + 1), t, n + 1) <= Steps(Start(cur, n), t, n) + 1
  {
  }

  predicate ReadyT(k: Kernel, t: nat) {
    t < |k.threads| && k.threads[t].state == TReady
  }

  predicate ReadyP(k: Kernel, p: nat) {
    p < NP(k) && p < |k.procs| && k.procs[p].state == PReady
  }

  // ---- One interrupt -------------------------------------------------------------------

  lemma SaveKeeps(k: Kernel, esp: nat)
    requires Tables(k)
    ensures var k0 := Save(k, esp);
      && NT(k0) == NT(k) && NP(k0) == NP(k) && k0.preferThread == k.preferThread && k0.ticks == k.ticks + 1
      && k0.curThread == k.curThread && k0.curProc == k.curProc
      && |k0.threads| == |k.threads| && |k0.procs| == |k.procs|
      && (forall t: nat :: ReadyT(k, t) ==> ReadyT(k0, t))
      && (forall p: nat :: ReadyP(k, p) ==> ReadyP(k0, p))
  {
  }

  lemma ChosenThreadCloser(k: Kernel, t: nat, c: nat)
    requires Tables(k) && t < NT(k) && ReadyT(k, t)
    requires FindNextThread(k) == To(c) && c != t
    ensures c < NT(k) && Steps(After(c, NT(k)), t, NT(k)) < Steps(Start(k.curThread, NT(k)), t, NT(k))
  {
    NextNearest(ReadyThreads(k), k.curThread, t);
    StepsPast(Start(k.curThread, NT(k)), c, t, NT(k));
  }

  lemma ChosenProcessCloser(k: Kernel, p: nat, c: nat)
    requires Tables(k) && ReadyP(k, p)
    requires FindNextProcess(k) == To(c) && c != p
    ensures c < NP(k) && Steps(After(c, NP(k)), p, NP(k)) < Steps(Start(k.curProc, NP(k)), p, NP(k))
  {
    NextNearest(ReadyProcs(k), k.curProc, p);
    StepsPast(Start(k.curProc, NP(k)), c, p, NP(k));
  }

  lemma ThreadFound(k: Kernel, t: nat)
    requires Tables(k) && t < NT(k) && ReadyT(k, t)
    ensures FindNextThread(k).To?
  {
    NextNearest(ReadyThreads(k), k.curThread, t);
  }

  lemma ProcessFound(k: Kernel, p: nat)
    requires Tables(k) && ReadyP(k, p)
    ensures FindNextProcess(k).To?
  {
    NextNearest(ReadyProcs(k), k.curProc, p);
  }

  lemma DispatchCloserThread(k: Kernel, esp: nat, t: nat)
    requires Tables(k) && t < NT(k) && ReadyT(k, t)
    ensures var k1 := Dispatch(k, Choose(k), esp).0;
      Tables(k1) && NT(k1) == NT(k) && k1.ticks == k.ticks
      && (ReadyT(k1, t) ==> ThreadPotential(k1, t) < ThreadPotential(k, t))
  {
    hide FindNextThread;
    hide FindNextProcess;
    hide ThreadTable;
    hide ProcTable;
    hide Start;
    TableSizes(k);
    DispatchTables(k, Choose(k), esp);
    ThreadFound(k, t);
    var k1 := Dispatch(k, Choose(k), esp).0;
    match Choose(k)
    case RunThread(c) =>
      if c != t {
        ChosenThreadCloser(k, t, c);
        assert Start(k1.curThread, NT(k)) == After(c, NT(k)) by { StartAfter(c, NT(k)); }
      }
    case RunProcess(c) =>
    case Continue =>
  }

  lemma StartAfter(c: nat, n: nat)
    requires c < n
    ensures Start(To(c), n) == After(c, n)
  {
  }

  lemma DispatchCloserProcess(k: Kernel, esp: nat, p: nat)
    requires Tables(k) && ReadyP(k, p)
    ensures var k1 := Dispatch(k, Choose(k), esp).0;
      Tables(k1) && NP(k1) == NP(k) && k1.ticks == k.ticks
      && (ReadyP(k1, p) ==> ProcessPotential(k1, p) < ProcessPotential(k, p))
  {
    hide FindNextThread;
    hide FindNextProcess;
    hide ThreadTable;
    hide ProcTable;
    hide Start;
    TableSizes(k);
    DispatchTables(k, Choose(k), esp);
    ProcessFound(k, p);
    var k1 := Dispatch(k, Choose(k), esp).0;
    match Choose(k)
    case RunProcess(c) =>
      if c != p {
        ChosenProcessCloser(k, p, c);
        assert Start(k1.curProc, NP(k)) == After(c, NP(k)) by { StartAfter(c, NP(k)); }
      }
    case RunThread(c) =>
    case Continue =>
  }

  /** Each interrupt that leaves t READY brings it closer. */
  lemma IrqCloser(k: Kernel, esp: nat, t: nat, p: nat)
    requires Tables(k)
    ensures var k1 := Irq(k, esp).0;
      && Tables(k1) && NT(k1) == NT(k) && NP(k1) == NP(k) && k1.ticks == k.ticks + 1
      && (t < NT(k) && ReadyT(k, t) && ReadyT(k1, t) ==> ThreadPotential(k1, t) < ThreadPotential(k, t))
      && (ReadyP(k, p) && ReadyP(k1, p) ==> ProcessPotential(k1, p) < ProcessPotential(k, p))
  {
    hide Dispatch;
    hide Choose;
    hide Save;
    hide ThreadTable;
    hide ProcTable;
    hide Steps;
    hide Start;
    IrqTables(k, esp);
    SaveTables(k, esp);
    SaveKeeps(k, esp);
    var k0 := Save(k, esp);
    DispatchTicks(k0, Choose(k0), esp);
    if t < NT(k) && ReadyT(k, t) {
      DispatchCloserThread(k0, esp, t);
    }
    if ReadyP(k, p) {
      DispatchCloserProcess(k0, esp, p);
    }
  }

  lemma DispatchTicks(k: Kernel, c: Choice, esp: nat)
    requires Tables(k)
    requires c.RunThread? ==> c.t < NT(k)
    requires c.RunProcess? ==> c.p < NP(k)
    ensures Dispatch(k, c, esp).0.ticks == k.ticks
  {
  }

  // ---- One step ------------------------------------------------------------------------

  /** The scheduler's own variables are as they were. */
  predicate SameTurn(k: Kernel, k1: Kernel) {
    && NT(k1) == NT(k) && NP(k1) == NP(k)
    && k1.curThread == k.curThread && k1.curProc == k.curProc && k1.preferThread == k.preferThread && k1.ticks == k.ticks
  }

  /** Ticks spent between k and k1 are paid for by the potentials of t and of p. */
  predicate Paid(k: Kernel, k1: Kernel, t: nat, p: nat)
    requires Tables(k) && Tables(k1)
  {
    && NT(k) <= NT(k1) && NP(k) <= NP(k1) && k.ticks <= k1.ticks
    && (t < NT(k) && ReadyT(k, t) && ReadyT(k1, t) ==>
      ThreadPotential(k1, t) + k1.ticks - k.ticks <= ThreadPotential(k, t))
    && (ReadyP(k, p) && ReadyP(k1, p) ==>
      ProcessPotential(k1, p) + k1.ticks - k.ticks <= ProcessPotential(k, p))
  }

  lemma SamePaid(k: Kernel, k1: Kernel, t: nat, p: nat)
    requires Tables(k) && Tables(k1) && SameTurn(k, k1)
    ensures Paid(k, k1, t, p)
  {
    hide ThreadTable;
    hide ProcTable;
  }

  lemma BodyPaid(k: Kernel, r: (Sys, bool), esp: nat, t: nat, p: nat)
    requires Tables(k) && Ready(r) && SameTurn(k, r.0.k) && Quits(k, r.0.k)
    ensures Tables(MaybeYield(r, esp).k) && Paid(k, MaybeYield(r, esp).k, t, p)
  {
    hide QueueInv;
    hide ThreadTable;
    hide ProcTable;
    hide Irq;
    hide Steps;
    hide Start;
    var k0 := r.0.k;
    TableSizes(k);
    if r.1 {
      IrqCloser(k0, esp, t, p);
      IrqStates(k0, esp);
    }
  }

  lemma CreatePaid(k: Kernel, esp: nat, t: nat, p: nat)
    requires Tables(k)
    ensures Tables(CreateThread(k, esp).0) && Paid(k, CreateThread(k, esp).0, t, p)
    ensures Tables(CreateProcess(k, esp).0) && Paid(k, CreateProcess(k, esp).0, t, p)
  {
    hide CreateThread;
    hide CreateProcess;
    hide Steps;
    hide Start;
    hide ThreadTable;
    hide ProcTable;
    TableSizes(k);
    CurrentSlots(k);
    CreateThreadTables(k, esp);
    CreateProcessTables(k, esp);
    NewThreadEffect(k, esp);
    NewProcessEffect(k, esp);
    if t < NT(k) {
      StepsGrow(k.curThread, t, NT(k));
    }
    if p < NP(k) {
      StepsGrow(k.curProc, p, NP(k));
    }
  }

  lemma LockKeepsTurn(s: Sys, m: nat)
    requires Sized(s) && Tables(s.k) && m < |s.mutexes|
    ensures SameTurn(s.k, LockBody(s, m).0.k) && SameTurn(s.k, UnlockBody(s, m).k)
  {
    hide Tables;
    hide Lock;
    hide Unlock;
    CurrentInRange(s.k);
  }

  lemma WaitKeepsTurn(s: Sys, j: nat)
    requires Sized(s) && Tables(s.k) && j < |s.sems|
    ensures SameTurn(s.k, WaitBody(s, j).0.k) && SameTurn(s.k, SignalBody(s, j).k)
  {
    hide Tables;
    hide Wait;
    hide Signal;
    CurrentInRange(s.k);
  }

  lemma ExitKeepsTurn(s: Sys, pid: nat)
    requires Sized(s) && Tables(s.k)
    ensures SameTurn(s.k, ExitBody(s).0.k) && SameTurn(s.k, ProcessExitBody(s).0.k)
    ensures SameTurn(s.k, KillBody(s, pid).0.k)
  {
    hide Tables;
    hide ProcFind;
    CurrentInRange(s.k);
  }

  lemma StepPaid(s: Sys, e: Event, t: nat, p: nat)
    requires Inv(s) && Enabled(s, e)
    ensures Tables(s.k) && Tables(Step(s, e).k) && Paid(s.k, Step(s, e).k, t, p)
  {
    hide QueueInv;
    hide Tables;
    hide Ready;
    hide Quits;
    hide Paid;
    hide LockBody;
    hide WaitBody;
    hide UnlockBody;
    hide SignalBody;
    hide ExitBody;
    hide KillBody;
    hide ProcessExitBody;
    hide CreateThread;
    hide CreateProcess;
    InvTables(s);
    StepInv(s, e);
    match e
    case Tick(esp) => InvReady(s); BodyPaid(s.k, (s, true), esp, t, p);
    case CallLock(m, esp) =>
      LockReady(s, m); LockQuits(s, m); LockKeepsTurn(s, m); BodyPaid(s.k, LockBody(s, m), esp, t, p);
    case CallUnlock(m) => LockKeepsTurn(s, m); SamePaid(s.k, UnlockBody(s, m).k, t, p);
    case CallWait(j, esp) =>
      WaitReady(s, j); WaitQuits(s, j); WaitKeepsTurn(s, j); BodyPaid(s.k, WaitBody(s, j), esp, t, p);
    case CallSignal(j) => WaitKeepsTurn(s, j); SamePaid(s.k, SignalBody(s, j).k, t, p);
    case InitMutex(m) => SamePaid(s.k, s.k, t, p);
    case InitSem(j, value) => SamePaid(s.k, s.k, t, p);
    case NewThread(esp) => CreatePaid(s.k, esp, t, p);
    case ThreadExits(esp) =>
      ExitReady(s); ExitQuits(s); ExitKeepsTurn(s, 0); BodyPaid(s.k, ExitBody(s), esp, t, p);
    case NewProcess(esp) => CreatePaid(s.k, esp, t, p);
    case KillProcess(pid, esp) =>
      KillReady(s, pid); KillQuits(s, pid); ExitKeepsTurn(s, pid); BodyPaid(s.k, KillBody(s, pid), esp, t, p);
    case ProcessExits(esp) =>
      ProcessExitReady(s); ProcessExitQuits(s); ExitKeepsTurn(s, 0); BodyPaid(s.k, ProcessExitBody(s), esp, t, p);
  }

  // ---- Whole runs ----------------------------------------------------------------------

  /** Thread t is READY in every state of the run. */
  ghost predicate StaysReady(s: Sys, es: seq<Event>, t: nat)
    requires Inv(s) && CanRun(s, es)
    decreases |es|
  {
    ReadyT(s.k, t) && (es == [] || (StepInv(s, es[0]); StaysReady(Step(s, es[0]), es[1..], t)))
  }

  ghost predicate ProcessStaysReady(s: Sys, es: seq<Event>, p: nat)
    requires Inv(s) && CanRun(s, es)
    decreases |es|
  {
    ReadyP(s.k, p) && (es == [] || (StepInv(s, es[0]); ProcessStaysReady(Step(s, es[0]), es[1..], p)))
  }

  lemma ReadyExists(k: Kernel, t: nat)
    requires Tables(k) && ReadyT(k, t)
    ensures t < NT(k)
  {
  }

  lemma {:induction false} ThreadWaitPaid(s: Sys, es: seq<Event>, t: nat)
    requires Inv(s) && CanRun(s, es) && StaysReady(s, es, t)
    ensures Tables(s.k) && t < NT(s.k) && s.k.ticks <= Run(s, es).k.ticks <= s.k.ticks + ThreadPotential(s.k, t)
    decreases |es|
  {
    hide Inv;
    hide Tables;
    hide Step;
    hide ThreadPotential;
    hide ProcessPotential;
    InvTables(s);
    ReadyExists(s.k, t);
    if es != [] {
      StepInv(s, es[0]);
      StepPaid(s, es[0], t, 0);
      ThreadWaitPaid(Step(s, es[0]), es[1..], t);
    }
  }

  lemma {:induction false} ProcessWaitPaid(s: Sys, es: seq<Event>, p: nat)
    requires Inv(s) && CanRun(s, es) && ProcessStaysReady(s, es, p)
    ensures Tables(s.k) && s.k.ticks <= Run(s, es).k.ticks <= s.k.ticks + ProcessPotential(s.k, p)
    decreases |es|
  {
    hide Inv;
    hide Tables;
    hide Step;
    hide ThreadPotential;
    hide ProcessPotential;
    InvTables(s);
    if es != [] {
      StepInv(s, es[0]);
      StepPaid(s, es[0], 0, p);
      ProcessWaitPaid(Step(s, es[0]), es[1..], p);
    }
  }

  /** A thread that stays READY sees fewer than 2 * 32 interrupts: within that many it is
      dispatched. */
  lemma ThreadDispatchedInTime(s: Sys, es: seq<Event>, t: nat)
    requires Inv(s) && CanRun(s, es) && StaysReady(s, es, t)
    ensures Run(s, es).k.ticks - s.k.ticks < 2 * MAX_THREADS
  {
    ThreadWaitPaid(s, es, t);
  }

  /** The same for a process and 2 * 16. */
  lemma ProcessDispatchedInTime(s: Sys, es: seq<Event>, p: nat)
    requires Inv(s) && CanRun(s, es) && ProcessStaysReady(s, es, p)
    ensures Run(s, es).k.ticks - s.k.ticks < 2 * MAX_PROCESSES
  {
    ProcessWaitPaid(s, es, p);
  }

  // ---- Who gets to run -----------------------------------------------------------------

  predicate RunningT(k: Kernel, t: nat) {
    t < |k.threads| && k.threads[t].state == TRunning
  }

  predicate Runnable(k: Kernel, t: nat) {
    ReadyT(k, t) || RunningT(k, t)
  }

  /** An event takes at most one interrupt, and a thread starts to run only by one. */
  ghost predicate OneSwitch(k: Kernel, k1: Kernel) {
    && k.ticks <= k1.ticks <= k.ticks + 1
    && (k1.ticks == k.ticks ==> forall t: nat :: RunningT(k1, t) ==> RunningT(k, t))
  }

  lemma YieldSwitches(k: Kernel, r: (Sys, bool), esp: nat)
    requires Ready(r) && SameTurn(k, r.0.k) && Quits(k, r.0.k)
    ensures OneSwitch(k, MaybeYield(r, esp).k)
  {
    hide QueueInv;
    hide Tables;
    hide Irq;
    if r.1 {
      IrqCloser(r.0.k, esp, 0, 0);
    }
  }

  lemma WakeSwitches(k: Kernel, woken: Ptr)
    ensures OneSwitch(k, Wake(k, woken))
  {
  }

  lemma CreateSwitches(k: Kernel, esp: nat)
    requires Tables(k)
    ensures OneSwitch(k, CreateThread(k, esp).0) && OneSwitch(k, CreateProcess(k, esp).0)
  {
    hide Tables;
    hide CreateThread;
    hide CreateProcess;
    assert ThreadTable(k) && ProcTable(k) by { TablesSplit(k); }
    NewThreadEffect(k, esp);
    NewProcessEffect(k, esp);
  }

  lemma TablesSplit(k: Kernel)
    requires Tables(k)
    ensures ThreadTable(k) && ProcTable(k)
  {
    hide ThreadTable;
    hide ProcTable;
  }

  lemma StepSwitches(s: Sys, e: Event)
    requires Inv(s) && Enabled(s, e)
    ensures OneSwitch(s.k, Step(s, e).k)
  {
    hide QueueInv;
    hide Tables;
    hide Ready;
    hide Quits;
    hide OneSwitch;
    hide SameTurn;
    hide LockBody;
    hide WaitBody;
    hide ExitBody;
    hide KillBody;
    hide ProcessExitBody;
    InvTables(s);
    match e
    case Tick(esp) => InvReady(s); SameTurnSelf(s.k); YieldSwitches(s.k, (s, true), esp);
    case CallLock(m, esp) =>
      LockReady(s, m); LockQuits(s, m); LockKeepsTurn(s, m); YieldSwitches(s.k, LockBody(s, m), esp);
    case CallUnlock(m) => WakeSwitches(s.k, Unlock(s.mutexes[m], s.k.thread).1);
    case CallWait(j, esp) =>
      WaitReady(s, j); WaitQuits(s, j); WaitKeepsTurn(s, j); YieldSwitches(s.k, WaitBody(s, j), esp);
    case CallSignal(j) => WakeSwitches(s.k, Signal(s.sems[j]).1);
    case InitMutex(m) => WakeSwitches(s.k, Null);
    case InitSem(j, value) => WakeSwitches(s.k, Null);
    case NewThread(esp) => CreateSwitches(s.k, esp);
    case ThreadExits(esp) =>
      ExitReady(s); ExitQuits(s); ExitKeepsTurn(s, 0); YieldSwitches(s.k, ExitBody(s), esp);
    case NewProcess(esp) => CreateSwitches(s.k, esp);
    case KillProcess(pid, esp) =>
      KillReady(s, pid); KillQuits(s, pid); ExitKeepsTurn(s, pid); YieldSwitches(s.k, KillBody(s, pid), esp);
    case ProcessExits(esp) =>
      ProcessExitReady(s); ProcessExitQuits(s); ExitKeepsTurn(s, 0); YieldSwitches(s.k, ProcessExitBody(s), esp);
  }

  lemma SameTurnSelf(k: Kernel)
    ensures SameTurn(k, k)
  {
  }

  /** Interrupts until thread t must get on with its work: those before it is dispatched, or, if it
      has worked since it was dispatched, one more to take the CPU from it. */
  const MAX_DELAY := 2 * MAX_THREADS + 1

  function Delay(k: Kernel, t: nat, worked: bool): (d: nat)
    requires ThreadTable(k) && t < NT(k)
    ensures d <= MAX_DELAY
  {
    if ReadyT(k, t) then ThreadPotential(k, t) + 1 else if RunningT(k, t) && !worked then 0 else MAX_DELAY
  }

  /** Has the running thread worked since it was dispatched? An interrupt starts afresh. */
  function StillWorked(k: Kernel, k1: Kernel, worked: bool): bool {
    worked && k1.ticks == k.ticks
  }

  /** Whatever else happens, a thread that stays runnable, and loses the CPU only after it has
      worked, pays for every interrupt out of its delay. */
  lemma DelayPaid(s: Sys, e: Event, t: nat, worked: bool)
    requires Inv(s) && Enabled(s, e) && Tables(s.k) && t < NT(s.k)
    requires Runnable(s.k, t) && Runnable(Step(s, e).k, t)
    requires RunningT(s.k, t) ==> e.Tick? && worked
    ensures Tables(Step(s, e).k) && NT(s.k) <= NT(Step(s, e).k)
    ensures var k1 := Step(s, e).k;
      s.k.ticks <= k1.ticks && Delay(k1, t, StillWorked(s.k, k1, worked)) + k1.ticks - s.k.ticks <= Delay(s.k, t, worked)
  {
    hide Inv;
    hide ThreadTable;
    hide ProcTable;
    hide Step;
    hide ThreadPotential;
    InvTables(s);
    StepInv(s, e);
    InvTables(Step(s, e));
    StepPaid(s, e, t, 0);
    StepSwitches(s, e);
    if RunningT(s.k, t) {
      TickCounts(s, e);
    }
  }

  lemma TickCounts(s: Sys, e: Event)
    requires Inv(s) && e.Tick? && Enabled(s, e) && Sized(s) && Tables(s.k)
    ensures Step(s, e).k.ticks == s.k.ticks + 1
  {
    hide Inv;
    hide Irq;
    hide Tables;
    IrqCloser(s.k, e.esp, 0, 0);
  }

  /** A thread that is not blocked gets blocked only by its own call of lock or wait. */
  lemma StillFree(s: Sys, e: Event, t: nat)
    requires Inv(s) && Enabled(s, e) && t < MAX_THREADS && !Blocked(s.k, t)
    requires s.k.thread != To(t) || e.Tick? || e.ThreadExits?
    ensures !Blocked(Step(s, e).k, t)
  {
    hide Tables;
    hide Irq;
    hide QueueInv;
    InvTables(s);
    TableSizes(s.k);
    if e.Tick? {
      IrqStates(s.k, e.esp);
    } else if e.ThreadExits? {
      ExitReady(s);
      if ExitBody(s).1 {
        IrqStates(ExitBody(s).0.k, e.esp);
      }
    } else {
      StepMoves(s, e);
      assert ThreadMove(s.k.threads[t].state, Step(s, e).k.threads[t].state);
    }
  }

  lemma LivingRuns(s: Sys, t: nat)
    requires Inv(s) && t < NT(s.k) && !Blocked(s.k, t) && !Dead(s.k, t)
    ensures Runnable(s.k, t)
  {
  }

  lemma RunningIsCurrent(s: Sys, t: nat)
    requires Inv(s) && RunningT(s.k, t)
    ensures s.k.thread == To(t)
  {
  }
}
