/** The whole kernel as one transition system: the scheduler of kernel/scheduler.c, the mutexes and
    semaphores, and whatever the running context calls next. A run is any sequence of enabled
    events, so a tick may land between any two calls. */
module System {
  import opened Sched
  import opened Sync

  /** The blocking call a thread made last, until it does something else. */
  datatype Call = Idle | InLock(m: nat) | InWait(j: nat)

  /** `calls`, the logs and `inits` are history that no step reads. */
  datatype Sys = Sys(
    k: Kernel, mutexes: seq<Mutex>, sems: seq<Sem>,
    calls: seq<Call>, mlogs: seq<Log>, slogs: seq<Log>, inits: seq<int>)

  /** A tick, or a call made by the running context; esp is its stack pointer, should it be
      switched out. */
  datatype Event =
    | Tick(esp: nat)
    | CallLock(m: nat, esp: nat) | CallUnlock(m: nat) | CallWait(j: nat, esp: nat) | CallSignal(j: nat)
    | InitMutex(m: nat) | InitSem(j: nat, value: int)
    | NewThread(esp: nat) | ThreadExits(esp: nat)
    | NewProcess(esp: nat) | KillProcess(pid: nat, esp: nat) | ProcessExits(esp: nat)

  // ---- Invariant -----------------------------------------------------------------------

  predicate Sized(s: Sys) {
    && |s.calls| == MAX_THREADS
    && |s.mlogs| == |s.mutexes|
    && |s.slogs| == |s.sems| && |s.inits| == |s.sems|
  }

  predicate Blocked(k: Kernel, t: nat) {
    t < |k.threads| && k.threads[t].state == TBlocked
  }

  /** Thread t is on the wait queue that the call c names. */
  predicate Waits(s: Sys, t: nat, c: Call) {
    match c
    case Idle => false
    case InLock(m) => m < |s.mutexes| && t in s.mutexes[m].queue
    case InWait(j) => j < |s.sems| && t in s.sems[j].queue
  }

  /** A thread is BLOCKED if and only if it is on a wait queue, and only on that of its last call. */
  ghost predicate WaitInv(s: Sys)
    requires Sized(s)
  {
    forall t: nat, c: Call :: Waits(s, t, c) <==> Blocked(s.k, t) && t < |s.calls| && s.calls[t] == c
  }

  /** A thread whose last call was a lock and which is not waiting for it owns the mutex. */
  ghost predicate OwnerInv(s: Sys)
    requires Sized(s)
  {
    forall t: nat :: t < |s.calls| && s.calls[t].InLock? && !Blocked(s.k, t) ==>
      s.calls[t].m < |s.mutexes| && s.mutexes[s.calls[t].m].owner == To(t)
  }

  predicate Objects(s: Sys)
    requires Sized(s)
  {
    && (forall m :: 0 <= m < |s.mutexes| ==> MutexOk(s.mutexes[m]) && MutexFair(s.mlogs[m], s.mutexes[m]))
    && (forall j :: 0 <= j < |s.sems| ==> SemOk(s.sems[j]) && SemFair(s.slogs[j], s.sems[j], s.inits[j]))
  }

  /** What holds of the calls and queues whoever is about to run. */
  ghost predicate QueueInv(s: Sys) {
    Sized(s) && Objects(s) && WaitInv(s) && OwnerInv(s)
  }

  predicate KernelInv(k: Kernel) {
    Tables(k) && Settled(k) && ShellAlive(k)
  }

  ghost predicate Inv(s: Sys) {
    KernelInv(s.k) && QueueInv(s)
  }

  // ---- Steps ---------------------------------------------------------------------------

  /** Before the first tick kernel_main only creates processes. A mutex or semaphore is initialised
      while nobody waits on it; PID 1 never exits. */
  predicate Enabled(s: Sys, e: Event) {
    && (s.k.kind == Boot ==> e.Tick? || e.NewProcess?)
    && match e
       case CallLock(m, _) => m < |s.mutexes|
       case CallUnlock(m) => m < |s.mutexes|
       case CallWait(j, _) => j < |s.sems|
       case CallSignal(j) => j < |s.sems|
       case InitMutex(m) => m < |s.mutexes| && s.mutexes[m].queue == []
       case InitSem(j, v) => j < |s.sems| && s.sems[j].queue == [] && v >= 0
       case ProcessExits(_) => s.k.proc != To(0)
       case _ => true
  }

  /** Whatever the running thread does next ends its last call. */
  function Leave(s: Sys): (r: Sys)
    requires Sized(s) && Tables(s.k)
    ensures Sized(r) && r.k == s.k
  {
    CurrentInRange(s.k);
    if s.k.thread == Null then s else s.(calls := s.calls[s.k.thread.slot := Idle])
  }

  function Yield(s: Sys, esp: nat): Sys
    requires Tables(s.k)
  {
    s.(k := Irq(s.k, esp).0)
  }

  function Entered(s: Sys, c: Call): (r: Sys)
    requires Sized(s) && Tables(s.k)
    ensures Sized(r) && r.k == s.k
  {
    CurrentInRange(s.k);
    if s.k.thread == Null then s else s.(calls := s.calls[s.k.thread.slot := c])
  }

  /** The body of mutex_lock up to its yield, and whether it yields. */
  function LockBody(s: Sys, m: nat): (r: (Sys, bool))
    requires Sized(s) && Tables(s.k) && m < |s.mutexes|
    ensures Tables(r.0.k) && Sized(r.0)
  {
    CurrentInRange(s.k);
    var c := s.k.thread;
    var (m1, blocks) := Lock(s.mutexes[m], c);
    var s1 := Entered(s, InLock(m)).(
      mutexes := s.mutexes[m := m1], mlogs := s.mlogs[m := LockLog(s.mlogs[m], s.mutexes[m], c)]);
    (s1.(k := if blocks then BlockCurrent(s.k) else s.k), blocks)
  }

  function UnlockBody(s: Sys, m: nat): Sys
    requires Sized(s) && Tables(s.k) && m < |s.mutexes|
  {
    var (m1, woken) := Unlock(s.mutexes[m], s.k.thread);
    Leave(s).(
      mutexes := s.mutexes[m := m1], mlogs := s.mlogs[m := GrantLog(s.mlogs[m], woken)],
      k := Wake(s.k, woken))
  }

  function WaitBody(s: Sys, j: nat): (r: (Sys, bool))
    requires Sized(s) && Tables(s.k) && j < |s.sems|
    ensures Tables(r.0.k) && Sized(r.0)
  {
    CurrentInRange(s.k);
    var c := s.k.thread;
    var (j1, blocks) := Wait(s.sems[j], c);
    var s1 := Entered(s, InWait(j)).(
      sems := s.sems[j := j1], slogs := s.slogs[j := WaitLog(s.slogs[j], s.sems[j], c)]);
    (s1.(k := if blocks then BlockCurrent(s.k) else s.k), blocks)
  }

  function SignalBody(s: Sys, j: nat): Sys
    requires Sized(s) && Tables(s.k) && j < |s.sems|
  {
    var (j1, woken) := Signal(s.sems[j]);
    Leave(s).(
      sems := s.sems[j := j1], slogs := s.slogs[j := SignalLog(s.slogs[j], woken)],
      k := Wake(s.k, woken))
  }

  /** A mutex starts afresh; locks taken before no longer count. */
  function InitMutexBody(s: Sys, m: nat): Sys
    requires Sized(s) && Tables(s.k) && m < |s.mutexes|
  {
    var s1 := Leave(s);
    s1.(mutexes := s.mutexes[m := FREE], mlogs := s.mlogs[m := EMPTY_LOG],
        calls := seq(|s1.calls|, t requires 0 <= t < |s1.calls| => if s1.calls[t] == InLock(m) then Idle else s1.calls[t]))
  }

  function InitSemBody(s: Sys, j: nat, value: int): Sys
    requires Sized(s) && Tables(s.k) && j < |s.sems|
  {
    Leave(s).(sems := s.sems[j := Sem(value, [])], slogs := s.slogs[j := EMPTY_LOG], inits := s.inits[j := value])
  }

  function ExitBody(s: Sys): (r: (Sys, bool))
    requires Sized(s) && Tables(s.k)
    ensures Tables(r.0.k) && Sized(r.0)
  {
    var (k1, switches) := ExitThread(s.k);
    (Leave(s).(k := k1), switches)
  }

  function KillBody(s: Sys, pid: nat): (r: (Sys, bool))
    requires Sized(s) && Tables(s.k)
    ensures Tables(r.0.k) && Sized(r.0)
  {
    var (k1, code, switches) := Kill(s.k, pid);
    (Leave(s).(k := k1), switches)
  }

  function ProcessExitBody(s: Sys): (r: (Sys, bool))
    requires Sized(s) && Tables(s.k)
    ensures Tables(r.0.k) && Sized(r.0)
  {
    var (k1, switches) := ExitProcess(s.k);
    (Leave(s).(k := k1), switches)
  }

  function MaybeYield(r: (Sys, bool), esp: nat): Sys
    requires Tables(r.0.k)
  {
    if r.1 then Yield(r.0, esp) else r.0
  }

  function Step(s: Sys, e: Event): Sys
    requires Sized(s) && Tables(s.k) && Enabled(s, e)
  {
    match e
    case Tick(esp) => Yield(s, esp)
    case CallLock(m, esp) => MaybeYield(LockBody(s, m), esp)
    case CallUnlock(m) => UnlockBody(s, m)
    case CallWait(j, esp) => MaybeYield(WaitBody(s, j), esp)
    case CallSignal(j) => SignalBody(s, j)
    case InitMutex(m) => InitMutexBody(s, m)
    case InitSem(j, value) => InitSemBody(s, j, value)
    case NewThread(esp) => Leave(s).(k := CreateThread(s.k, esp).0)
    case ThreadExits(esp) => MaybeYield(ExitBody(s), esp)
    case NewProcess(esp) => Leave(s).(k := CreateProcess(s.k, esp).0)
    case KillProcess(pid, esp) => MaybeYield(KillBody(s, pid), esp)
    case ProcessExits(esp) => MaybeYield(ProcessExitBody(s), esp)
  }

  // ---- One step keeps the invariant ----------------------------------------------------

  /** What a body leaves: everything but, if it is about to switch, who is RUNNING. */
  ghost predicate Ready(r: (Sys, bool)) {
    Tables(r.0.k) && OnlyCurrentRuns(r.0.k) && ShellAlive(r.0.k) && QueueInv(r.0) && (!r.1 ==> Settled(r.0.k))
  }

  lemma SameBlocked(s: Sys, s1: Sys)
    requires QueueInv(s) && s1 == s.(k := s1.k)
    requires forall t: nat :: Blocked(s1.k, t) <==> Blocked(s.k, t)
    ensures QueueInv(s1)
  {
    forall t: nat, c: Call
      ensures Waits(s1, t, c) <==> Blocked(s1.k, t) && t < |s1.calls| && s1.calls[t] == c
    {
      assert Waits(s1, t, c) <==> Waits(s, t, c);
    }
  }

  lemma YieldInv(r: (Sys, bool), esp: nat)
    requires Ready(r)
    ensures Inv(MaybeYield(r, esp))
  {
    hide Irq;
    hide WaitInv;
    hide OwnerInv;
    hide ThreadTable;
    hide ProcTable;
    if r.1 {
      IrqStates(r.0.k, esp);
      SameBlocked(r.0, Yield(r.0, esp));
    }
  }

  lemma KernelSetState(k: Kernel, t: nat, st: TState)
    requires KernelInv(k) && t < NT(k) && st != Unused && st != TRunning
    ensures var k1 := SetState(k, t, st);
      && Tables(k1) && OnlyCurrentRuns(k1) && ShellAlive(k1) && (k.threads[t].state != TRunning ==> Settled(k1))
  {
    hide ThreadTable;
    hide ProcTable;
    TableSizes(k);
    SetStateTables(k, t, st);
  }

  lemma KernelBury(k: Kernel, p: nat)
    requires KernelInv(k) && 0 < p < MAX_PROCESSES
    ensures var k1 := Bury(k, p);
      && Tables(k1) && OnlyCurrentRuns(k1) && ShellAlive(k1) && (k.procs[p].state != PRunning ==> Settled(k1))
  {
    hide ThreadTable;
    hide ProcTable;
    TableSizes(k);
    BuryTables(k, p);
  }

  lemma RunningNotWaiting(s: Sys, c: Call)
    requires Inv(s)
    ensures s.k.thread.To? ==>
      s.k.thread.slot < |s.calls| && s.k.threads[s.k.thread.slot].state == TRunning && !Waits(s, s.k.thread.slot, c)
  {
    TableSizes(s.k);
  }

  /** The caller c makes the call d: it waits if it blocks, and otherwise nobody's wait changes. */
  ghost predicate Joined(s: Sys, s1: Sys, d: Call, blocks: bool)
    requires Sized(s) && Sized(s1)
  {
    && InRange(s.k.thread, |s.calls|)
    && s1.calls == (if s.k.thread.To? then s.calls[s.k.thread.slot := d] else s.calls)
    && (forall t: nat :: Blocked(s1.k, t) <==> Blocked(s.k, t) || (blocks && s.k.thread == To(t)))
  }

  lemma JoinedWaits(s: Sys, s1: Sys, d: Call, blocks: bool)
    requires Inv(s) && Sized(s1) && Joined(s, s1, d, blocks)
    requires blocks ==> s.k.thread.To?
    requires forall t: nat, c: Call :: Waits(s1, t, c) <==> Waits(s, t, c) || (blocks && s.k.thread == To(t) && c == d)
    ensures WaitInv(s1)
  {
    hide Tables;
    hide Waits;
    hide Objects;
    forall t: nat, c: Call
      ensures Waits(s1, t, c) <==> Blocked(s1.k, t) && t < |s1.calls| && s1.calls[t] == c
    {
      RunningNotWaiting(s, c);
    }
  }

  lemma LockShape(s: Sys, m: nat)
    requires Inv(s) && m < |s.mutexes|
    ensures var (s1, blocks) := LockBody(s, m);
      && s1 == s.(k := s1.k, mutexes := s1.mutexes, mlogs := s1.mlogs, calls := s1.calls)
      && s1.mutexes == s.mutexes[m := Lock(s.mutexes[m], s.k.thread).0]
      && s1.mlogs == s.mlogs[m := LockLog(s.mlogs[m], s.mutexes[m], s.k.thread)]
      && blocks == Lock(s.mutexes[m], s.k.thread).1
      && Joined(s, s1, InLock(m), blocks)
  {
    CurrentInRange(s.k);
  }

  lemma LockQueue(s: Sys, m: nat)
    requires Inv(s) && m < |s.mutexes|
    ensures QueueInv(LockBody(s, m).0)
  {
    hide Tables;
    hide LockBody;
    hide Lock;
    hide LockLog;
    var c := s.k.thread;
    var (s1, blocks) := LockBody(s, m);
    RunningNotWaiting(s, InLock(m));
    LockShape(s, m);
    LockOk(s.mutexes[m], c);
    LockFair(s.mlogs[m], s.mutexes[m], c);
    assert WaitInv(s1) by {
      JoinedWaits(s, s1, InLock(m), blocks);
    }
  }

  lemma WaitShape(s: Sys, j: nat)
    requires Inv(s) && j < |s.sems|
    ensures var (s1, blocks) := WaitBody(s, j);
      && s1 == s.(k := s1.k, sems := s1.sems, slogs := s1.slogs, calls := s1.calls)
      && s1.sems == s.sems[j := Wait(s.sems[j], s.k.thread).0]
      && s1.slogs == s.slogs[j := WaitLog(s.slogs[j], s.sems[j], s.k.thread)]
      && blocks == Wait(s.sems[j], s.k.thread).1
      && Joined(s, s1, InWait(j), blocks)
  {
    CurrentInRange(s.k);
  }

  lemma WaitQueue(s: Sys, j: nat)
    requires Inv(s) && j < |s.sems|
    ensures QueueInv(WaitBody(s, j).0)
  {
    hide Tables;
    hide WaitBody;
    hide Wait;
    hide WaitLog;
    var c := s.k.thread;
    var (s1, blocks) := WaitBody(s, j);
    RunningNotWaiting(s, InWait(j));
    WaitShape(s, j);
    WaitOk(s.sems[j], c);
    WaitFair(s.slogs[j], s.sems[j], c, s.inits[j]);
    assert WaitInv(s1) by {
      JoinedWaits(s, s1, InWait(j), blocks);
    }
  }

  /** The thread woken, if any, leaves the queue of the call d; the caller's own call is over. */
  ghost predicate Left(s: Sys, s1: Sys, d: Call, woken: Ptr)
    requires Sized(s) && Sized(s1)
  {
    && InRange(s.k.thread, |s.calls|)
    && s1.calls == (if s.k.thread.To? then s.calls[s.k.thread.slot := Idle] else s.calls)
    && (woken.To? ==> Waits(s, woken.slot, d))
    && (forall t: nat :: Blocked(s1.k, t) <==> Blocked(s.k, t) && woken != To(t))
  }

  lemma LeftWaits(s: Sys, s1: Sys, d: Call, woken: Ptr)
    requires Inv(s) && Sized(s1) && Left(s, s1, d, woken)
    requires forall t: nat, c: Call :: Waits(s1, t, c) <==> Waits(s, t, c) && !(woken == To(t) && c == d)
    ensures WaitInv(s1)
  {
    hide Tables;
    hide Waits;
    hide Objects;
    forall t: nat, c: Call
      ensures Waits(s1, t, c) <==> Blocked(s1.k, t) && t < |s1.calls| && s1.calls[t] == c
    {
      RunningNotWaiting(s, c);
    }
  }

  /** Waking a BLOCKED thread leaves the running context as it was. */
  lemma WakeKernel(s: Sys, d: Call, woken: Ptr)
    requires Inv(s) && woken.To? && Waits(s, woken.slot, d)
    ensures woken.slot < NT(s.k) && woken.slot < |s.k.threads|
    ensures KernelInv(Unblock(s.k, woken.slot))
    ensures forall t: nat :: Blocked(Unblock(s.k, woken.slot), t) <==> Blocked(s.k, t) && woken != To(t)
  {
    hide Waits;
    hide OwnerInv;
    assert Blocked(s.k, woken.slot);
    assert s.k.threads[woken.slot].state == TBlocked;
    KernelSetState(s.k, woken.slot, TReady);
  }

  lemma UnlockShape(s: Sys, m: nat)
    requires Inv(s) && m < |s.mutexes|
    ensures var s1 := UnlockBody(s, m);
      var (m1, woken) := Unlock(s.mutexes[m], s.k.thread);
      && s1 == s.(k := s1.k, mutexes := s1.mutexes, mlogs := s1.mlogs, calls := s1.calls)
      && s1.mutexes == s.mutexes[m := m1]
      && s1.mlogs == s.mlogs[m := GrantLog(s.mlogs[m], woken)]
      && KernelInv(s1.k)
      && Left(s, s1, InLock(m), woken)
  {
    hide KernelInv;
    hide Unlock;
    hide Unblock;
    hide Blocked;
    assert Tables(s.k) by { InvTables(s); }
    CurrentInRange(s.k);
    UnlockOk(s.mutexes[m], s.k.thread);
    var woken := Unlock(s.mutexes[m], s.k.thread).1;
    if woken.To? {
      WakeKernel(s, InLock(m), woken);
    }
  }

  lemma InvTables(s: Sys)
    requires Inv(s)
    ensures Tables(s.k) && Sized(s)
  {
  }

  lemma UnlockQueue(s: Sys, m: nat)
    requires Inv(s) && m < |s.mutexes|
    ensures QueueInv(UnlockBody(s, m))
  {
    hide Tables;
    hide UnlockBody;
    hide Unlock;
    hide GrantLog;
    var s1 := UnlockBody(s, m);
    var (m1, woken) := Unlock(s.mutexes[m], s.k.thread);
    UnlockShape(s, m);
    UnlockOk(s.mutexes[m], s.k.thread);
    UnlockFair(s.mlogs[m], s.mutexes[m], s.k.thread);
    assert WaitInv(s1) by {
      LeftWaits(s, s1, InLock(m), woken);
    }
    if woken.To? {
      assert Waits(s, woken.slot, InLock(m));
    }
  }

  lemma SignalShape(s: Sys, j: nat)
    requires Inv(s) && j < |s.sems|
    ensures var s1 := SignalBody(s, j);
      var (j1, woken) := Signal(s.sems[j]);
      && s1 == s.(k := s1.k, sems := s1.sems, slogs := s1.slogs, calls := s1.calls)
      && s1.sems == s.sems[j := j1]
      && s1.slogs == s.slogs[j := SignalLog(s.slogs[j], woken)]
      && KernelInv(s1.k)
      && Left(s, s1, InWait(j), woken)
  {
    hide KernelInv;
    hide Signal;
    hide SignalLog;
    hide Unblock;
    hide Blocked;
    assert Tables(s.k) by { InvTables(s); }
    CurrentInRange(s.k);
    SignalOk(s.sems[j]);
    var woken := Signal(s.sems[j]).1;
    if woken.To? {
      WakeKernel(s, InWait(j), woken);
    }
  }

  lemma SignalQueue(s: Sys, j: nat)
    requires Inv(s) && j < |s.sems|
    ensures QueueInv(SignalBody(s, j))
  {
    hide Tables;
    hide SignalBody;
    hide Signal;
    hide SignalLog;
    var s1 := SignalBody(s, j);
    var (j1, woken) := Signal(s.sems[j]);
    SignalShape(s, j);
    SignalOk(s.sems[j]);
    SignalFair(s.slogs[j], s.sems[j], s.inits[j]);
    assert WaitInv(s1) by {
      LeftWaits(s, s1, InWait(j), woken);
    }
    if woken.To? {
      assert Waits(s, woken.slot, InWait(j));
    }
  }

  /** Any other call only ends the caller's last one. */
  lemma LeaveQueue(s: Sys, k1: Kernel)
    requires Inv(s)
    requires forall t: nat :: Blocked(k1, t) <==> Blocked(s.k, t)
    ensures QueueInv(Leave(s).(k := k1))
  {
    hide Tables;
    assert Tables(s.k);
    var s1 := Leave(s).(k := k1);
    CurrentInRange(s.k);
    TableSizes(s.k);
    assert Left(s, s1, Idle, Null);
    assert forall t: nat, c: Call :: Waits(s1, t, c) <==> Waits(s, t, c);
    LeftWaits(s, s1, Idle, Null);
  }

  lemma InitMutexQueue(s: Sys, m: nat)
    requires Inv(s) && m < |s.mutexes| && s.mutexes[m].queue == []
    ensures QueueInv(InitMutexBody(s, m))
  {
    hide Tables;
    assert Tables(s.k);
    LeaveQueue(s, s.k);
    var s1 := InitMutexBody(s, m);
    forall t: nat, c: Call
      ensures Waits(s1, t, c) <==> Blocked(s1.k, t) && t < |s1.calls| && s1.calls[t] == c
    {
      assert Waits(s1, t, c) <==> Waits(Leave(s), t, c);
      assert !Waits(Leave(s), t, InLock(m));
    }
  }

  lemma InitSemQueue(s: Sys, j: nat, value: int)
    requires Inv(s) && j < |s.sems| && s.sems[j].queue == [] && value >= 0
    ensures QueueInv(InitSemBody(s, j, value))
  {
    hide Tables;
    assert Tables(s.k);
    LeaveQueue(s, s.k);
    var s1 := InitSemBody(s, j, value);
    forall t: nat, c: Call
      ensures Waits(s1, t, c) <==> Blocked(s1.k, t) && t < |s1.calls| && s1.calls[t] == c
    {
      assert Waits(s1, t, c) <==> Waits(Leave(s), t, c);
    }
  }

  lemma NewThreadEffect(k: Kernel, esp: nat)
    requires ThreadTable(k)
    ensures var k1 := CreateThread(k, esp).0;
      && k1 == k.(threads := k1.threads, threadHead := k1.threadHead, nextTid := k1.nextTid)
      && |k1.threads| == |k.threads|
      && (forall t: nat :: t < |k.threads| && t != NT(k) ==> k1.threads[t] == k.threads[t].(next := k1.threads[t].next))
      && (NT(k) < |k.threads| ==> k.threads[NT(k)].state == Unused && k1.threads[NT(k)].state == TReady)
  {
  }

  lemma NewThreadKernel(k: Kernel, esp: nat)
    requires KernelInv(k)
    ensures KernelInv(CreateThread(k, esp).0)
    ensures forall t: nat :: Blocked(CreateThread(k, esp).0, t) <==> Blocked(k, t)
  {
    hide ThreadTable;
    hide ProcTable;
    hide CreateThread;
    CreateThreadTables(k, esp);
    NewThreadEffect(k, esp);
  }

  lemma NewProcessEffect(k: Kernel, esp: nat)
    requires ProcTable(k)
    ensures var k1 := CreateProcess(k, esp).0;
      && k1 == k.(procs := k1.procs, readyHead := k1.readyHead, nextPid := k1.nextPid)
      && |k1.procs| == |k.procs|
      && (forall p: nat :: p < |k.procs| && p != NP(k) ==> k1.procs[p] == k.procs[p].(next := k1.procs[p].next))
      && (NP(k) < |k.procs| ==> k1.procs[NP(k)].state == PReady)
  {
  }

  lemma NewProcessKernel(k: Kernel, esp: nat)
    requires KernelInv(k)
    ensures KernelInv(CreateProcess(k, esp).0)
    ensures forall t: nat :: Blocked(CreateProcess(k, esp).0, t) <==> Blocked(k, t)
  {
    hide ThreadTable;
    hide ProcTable;
    hide CreateProcess;
    CreateProcessTables(k, esp);
    NewProcessEffect(k, esp);
  }

  lemma LockReady(s: Sys, m: nat)
    requires Inv(s) && m < |s.mutexes|
    ensures Ready(LockBody(s, m))
  {
    hide Tables;
    hide QueueInv;
    InvTables(s);
    CurrentInRange(s.k);
    LockQueue(s, m);
    if LockBody(s, m).1 {
      KernelSetState(s.k, s.k.thread.slot, TBlocked);
    }
  }

  lemma WaitReady(s: Sys, j: nat)
    requires Inv(s) && j < |s.sems|
    ensures Ready(WaitBody(s, j))
  {
    hide Tables;
    hide QueueInv;
    InvTables(s);
    CurrentInRange(s.k);
    WaitQueue(s, j);
    if WaitBody(s, j).1 {
      KernelSetState(s.k, s.k.thread.slot, TBlocked);
    }
  }

  lemma ExitReady(s: Sys)
    requires Inv(s)
    ensures Ready(ExitBody(s))
  {
    hide Tables;
    hide QueueInv;
    InvTables(s);
    CurrentInRange(s.k);
    RunningNotWaiting(s, Idle);
    if s.k.thread.To? {
      KernelSetState(s.k, s.k.thread.slot, Terminated);
    }
    LeaveQueue(s, ExitBody(s).0.k);
  }

  lemma KillReady(s: Sys, pid: nat)
    requires Inv(s) && s.k.kind != Boot
    ensures Ready(KillBody(s, pid))
  {
    hide Tables;
    hide QueueInv;
    InvTables(s);
    ProcFindSlot(s.k, pid);
    var p := ProcFind(s.k.procs, pid, 0);
    if p.To? && p != To(0) {
      KernelBury(s.k, p.slot);
    }
    LeaveQueue(s, KillBody(s, pid).0.k);
  }

  lemma ProcessExitReady(s: Sys)
    requires Inv(s) && s.k.proc != To(0)
    ensures Ready(ProcessExitBody(s))
  {
    hide Tables;
    hide QueueInv;
    InvTables(s);
    CurrentInRange(s.k);
    if s.k.proc.To? {
      KernelBury(s.k, s.k.proc.slot);
    }
    LeaveQueue(s, ProcessExitBody(s).0.k);
  }

  /** Every enabled event keeps the whole-system invariant. */
  lemma StepInv(s: Sys, e: Event)
    requires Inv(s) && Enabled(s, e)
    ensures Inv(Step(s, e))
  {
    hide Ready;
    hide QueueInv;
    hide KernelInv;
    InvTables(s);
    match e
    case Tick(esp) => TickInv(s, esp);
    case CallLock(m, esp) => LockReady(s, m); YieldInv(LockBody(s, m), esp);
    case CallUnlock(m) => UnlockShape(s, m); UnlockQueue(s, m);
    case CallWait(j, esp) => WaitReady(s, j); YieldInv(WaitBody(s, j), esp);
    case CallSignal(j) => SignalShape(s, j); SignalQueue(s, j);
    case InitMutex(m) => InitMutexQueue(s, m);
    case InitSem(j, value) => InitSemQueue(s, j, value);
    case NewThread(esp) => NewThreadKernel(s.k, esp); LeaveQueue(s, CreateThread(s.k, esp).0);
    case ThreadExits(esp) => ExitReady(s); YieldInv(ExitBody(s), esp);
    case NewProcess(esp) => NewProcessKernel(s.k, esp); LeaveQueue(s, CreateProcess(s.k, esp).0);
    case KillProcess(pid, esp) => KillReady(s, pid); YieldInv(KillBody(s, pid), esp);
    case ProcessExits(esp) => ProcessExitReady(s); YieldInv(ProcessExitBody(s), esp);
  }

  lemma TickInv(s: Sys, esp: nat)
    requires Inv(s)
    ensures Inv(Yield(s, esp))
  {
    YieldInv((s, true), esp);
  }

  // ---- Runs ----------------------------------------------------------------------------

  /** After the three init calls, and proc_create of the shell: no mutex or semaphore is in use. */
  predicate Initial(s: Sys, esp: nat) {
    && s.k == CreateProcess(EmptyKernel(), esp).0
    && Sized(s)
    && (forall t :: 0 <= t < |s.calls| ==> s.calls[t] == Idle)
    && (forall m :: 0 <= m < |s.mutexes| ==> s.mutexes[m] == FREE && s.mlogs[m] == EMPTY_LOG)
    && (forall j :: 0 <= j < |s.sems| ==> s.sems[j] == Sem(0, []) && s.slogs[j] == EMPTY_LOG && s.inits[j] == 0)
  }

  lemma InitialInv(s: Sys, esp: nat)
    requires Initial(s, esp)
    ensures Inv(s)
  {
    CreateProcessTables(EmptyKernel(), esp);
  }

  /** The run of these events, each enabled in turn, if it can be taken. */
  ghost predicate CanRun(s: Sys, es: seq<Event>)
    requires Inv(s)
    decreases |es|
  {
    es == [] || (Enabled(s, es[0]) && (StepInv(s, es[0]); CanRun(Step(s, es[0]), es[1..])))
  }

  ghost function Run(s: Sys, es: seq<Event>): (r: Sys)
    requires Inv(s) && CanRun(s, es)
    ensures Inv(r)
    decreases |es|
  {
    if es == [] then s
    else StepInv(s, es[0]); Run(Step(s, es[0]), es[1..])
  }
}
