/** The running kernel: the tables of KernelCore with every mutex and semaphore object of
    KernelSync around them. Each call does to the objects exactly what the event does to the
    transition system of System, so every theorem about runs holds of the objects. */
module KernelObject {
  import opened Sched
  import opened Sync
  import opened System
  import opened KernelCore
  import opened KernelSync

  /** Static objects, zero at start. */
  method NewMutexes(n: nat) returns (ms: seq<MutexObject>)
    ensures |ms| == n && forall m, l :: 0 <= m < l < n ==> ms[m] != ms[l]
    ensures forall m :: 0 <= m < n ==> fresh(ms[m]) && ms[m].Model() == FREE && forall wn :: ms[m].Linked(wn)
  {
    ms := [];
    while |ms| < n
      invariant |ms| <= n && forall m, l :: 0 <= m < l < |ms| ==> ms[m] != ms[l]
      invariant forall m :: 0 <= m < |ms| ==> fresh(ms[m]) && ms[m].Model() == FREE && forall wn :: ms[m].Linked(wn)
    {
      var x := new MutexObject();
      ms := ms + [x];
    }
  }

  method NewSems(n: nat) returns (js: seq<SemObject>)
    ensures |js| == n && forall j, l :: 0 <= j < l < n ==> js[j] != js[l]
    ensures forall j :: 0 <= j < n ==> fresh(js[j]) && js[j].Model() == Sem(0, []) && forall wn :: js[j].Linked(wn)
  {
    js := [];
    while |js| < n
      invariant |js| <= n && forall j, l :: 0 <= j < l < |js| ==> js[j] != js[l]
      invariant forall j :: 0 <= j < |js| ==> fresh(js[j]) && js[j].Model() == Sem(0, []) && forall wn :: js[j].Linked(wn)
    {
      var x := new SemObject();
      js := js + [x];
    }
  }

  class Kern {
    const core: Core
    const mutexes: seq<MutexObject>
    const sems: seq<SemObject>
    ghost var calls: seq<Call>
    ghost var mlogs: seq<Log>
    ghost var slogs: seq<Log>
    ghost var inits: seq<int>

    ghost function Abs(): Sys
      reads this, core, core.threads, core.procs, mutexes, sems
    {
      Sys(core.State(),
          seq(|mutexes|, m requires 0 <= m < |mutexes| reads mutexes => mutexes[m].Model()),
          seq(|sems|, j requires 0 <= j < |sems| reads sems => sems[j].Model()),
          calls, mlogs, slogs, inits)
    }

    /** No object is listed twice, and each queue is chained through the one wait_next. */
    ghost predicate Chained()
      reads this, core, core.waitNext, mutexes, sems
    {
      && (forall m, n :: 0 <= m < n < |mutexes| ==> mutexes[m] != mutexes[n])
      && (forall j, n :: 0 <= j < n < |sems| ==> sems[j] != sems[n])
      && (forall m :: 0 <= m < |mutexes| ==> mutexes[m].Linked(core.waitNext[..]))
      && (forall j :: 0 <= j < |sems| ==> sems[j].Linked(core.waitNext[..]))
    }

    ghost predicate Valid()
      reads this, core, core.threads, core.procs, core.waitNext, mutexes, sems
    {
      core.Valid() && Chained() && Inv(Abs())
    }

    /** kernel_main: the tables are set up and the shell created; the statics are zero. */
    constructor (mutexCount: nat, semCount: nat, sp: nat)
      ensures Valid() && Initial(Abs(), sp)
      ensures |mutexes| == mutexCount && |sems| == semCount
      ensures fresh(core) && fresh(core.threads) && fresh(core.procs) && fresh(core.waitNext)
    {
      hide Tables;
      hide Inv;
      hide Chain;
      hide Sched.CreateProcess;
      hide EmptyKernel;
      var c := new Core();
      c.BootShell(sp);
      var ms := NewMutexes(mutexCount);
      var js := NewSems(semCount);
      core, mutexes, sems := c, ms, js;
      calls := seq(MAX_THREADS, _ => Idle);
      mlogs := seq(mutexCount, _ => EMPTY_LOG);
      slogs := seq(semCount, _ => EMPTY_LOG);
      inits := seq(semCount, _ => 0);
      new;
      InitialInv(Abs(), sp);
    }

    /** If every object but one was chained through wn, and wait_next differs from it only at the
        threads touched, none of which the other queues hold, every chain still holds. */
    lemma StillChained(wn: seq<Ptr>, m: int, j: int, touched: seq<nat>)
      requires core.Shape() && |wn| == MAX_THREADS
      requires forall n, l :: 0 <= n < l < |mutexes| ==> mutexes[n] != mutexes[l]
      requires forall n, l :: 0 <= n < l < |sems| ==> sems[n] != sems[l]
      requires forall n :: 0 <= n < |mutexes| ==> mutexes[n].Linked(if n == m then core.waitNext[..] else wn)
      requires forall n :: 0 <= n < |sems| ==> sems[n].Linked(if n == j then core.waitNext[..] else wn)
      requires forall t :: 0 <= t < MAX_THREADS && t !in touched ==> core.waitNext[t] == wn[t]
      requires forall n, t :: 0 <= n < |mutexes| && n != m && t in mutexes[n].queue ==> t !in touched
      requires forall n, t :: 0 <= n < |sems| && n != j && t in sems[n].queue ==> t !in touched
      ensures Chained()
    {
      hide Chain;
      forall n | 0 <= n < |mutexes| && n != m
        ensures mutexes[n].Linked(core.waitNext[..])
      {
        var x := mutexes[n];
        ChainInRange(wn, x.waitHead, x.waitTail, x.queue);
        ChainFrame(wn, core.waitNext[..], x.waitHead, x.waitTail, x.queue);
      }
      forall n | 0 <= n < |sems| && n != j
        ensures sems[n].Linked(core.waitNext[..])
      {
        var x := sems[n];
        ChainInRange(wn, x.waitHead, x.waitTail, x.queue);
        ChainFrame(wn, core.waitNext[..], x.waitHead, x.waitTail, x.queue);
      }
    }

    /** What Abs() says of the queues. */
    ghost predicate SameQueues(s: Sys)
      reads mutexes, sems
    {
      && |s.mutexes| == |mutexes| && |s.sems| == |sems|
      && (forall n :: 0 <= n < |mutexes| ==> s.mutexes[n].queue == mutexes[n].queue)
      && (forall n :: 0 <= n < |sems| ==> s.sems[n].queue == sems[n].queue)
    }

    /** mutex_lock, called by the running context. */
    method Lock(m: nat, esp: nat)
      requires Valid() && Enabled(Abs(), CallLock(m, esp))
      modifies `calls, `mlogs, mutexes[m], core, core.threads, core.procs, core.waitNext
      ensures Valid() && Abs() == Step(old(Abs()), CallLock(m, esp))
    {
      hide Tables;
      hide Inv;
      hide Chain;
      hide Step;
      ghost var s := Abs();
      assert s.mutexes[m] == mutexes[m].Model();
      CallerNotQueued(s);
      InvTables(s);
      calls := Entered(s, InLock(m)).calls;
      mlogs := mlogs[m := LockLog(mlogs[m], s.mutexes[m], core.thread)];
      mutexes[m].Lock(core, esp);
      ghost var s1 := Abs();
      assert s1.mutexes == s.mutexes[m := Sync.Lock(s.mutexes[m], s.k.thread).0];
      assert s1.sems == s.sems;
      LockStep(s, s1, m, esp);
      StepInv(s, CallLock(m, esp));
      DisjointQueues(s1);
      assert SameQueues(s1);
      StillChained(old(core.waitNext[..]), m, -1, mutexes[m].queue);
    }

    /** mutex_unlock. */
    method Unlock(m: nat)
      requires Valid() && Enabled(Abs(), CallUnlock(m))
      modifies `calls, `mlogs, mutexes[m], core.threads, core.waitNext
      ensures Valid() && Abs() == Step(old(Abs()), CallUnlock(m))
    {
      hide Tables;
      hide Inv;
      hide Chain;
      hide Step;
      ghost var s := Abs();
      assert s.mutexes[m] == mutexes[m].Model();
      assert SameQueues(s);
      WaitersExist(s);
      InvTables(s);
      calls := Leave(s).calls;
      mlogs := mlogs[m := GrantLog(mlogs[m], Sync.Unlock(s.mutexes[m], s.k.thread).1)];
      mutexes[m].Unlock(core);
      ghost var s1 := Abs();
      assert s1.mutexes == s.mutexes[m := Sync.Unlock(s.mutexes[m], s.k.thread).0];
      assert s1.sems == s.sems;
      UnlockStep(s, s1, m);
      StepInv(s, CallUnlock(m));
      DisjointQueues(s);
      StillChained(old(core.waitNext[..]), m, -1, old(mutexes[m].queue));
    }

    /** sem_wait, called by the running context. */
    method Wait(j: nat, esp: nat)
      requires Valid() && Enabled(Abs(), CallWait(j, esp))
      modifies `calls, `slogs, sems[j], core, core.threads, core.procs, core.waitNext
      ensures Valid() && Abs() == Step(old(Abs()), CallWait(j, esp))
    {
      hide Tables;
      hide Inv;
      hide Chain;
      hide Step;
      ghost var s := Abs();
      assert s.sems[j] == sems[j].Model();
      CallerNotQueued(s);
      InvTables(s);
      calls := Entered(s, InWait(j)).calls;
      slogs := slogs[j := WaitLog(slogs[j], s.sems[j], core.thread)];
      sems[j].Wait(core, esp);
      ghost var s1 := Abs();
      assert s1.sems == s.sems[j := Sync.Wait(s.sems[j], s.k.thread).0];
      assert s1.mutexes == s.mutexes;
      WaitStep(s, s1, j, esp);
      StepInv(s, CallWait(j, esp));
      DisjointQueues(s1);
      assert SameQueues(s1);
      StillChained(old(core.waitNext[..]), -1, j, sems[j].queue);
    }

    /** sem_signal. */
    method Signal(j: nat)
      requires Valid() && Enabled(Abs(), CallSignal(j))
      modifies `calls, `slogs, sems[j], core.threads, core.waitNext
      ensures Valid() && Abs() == Step(old(Abs()), CallSignal(j))
    {
      hide Tables;
      hide Inv;
      hide Chain;
      hide Step;
      ghost var s := Abs();
      assert s.sems[j] == sems[j].Model();
      assert SameQueues(s);
      WaitersExist(s);
      InvTables(s);
      calls := Leave(s).calls;
      slogs := slogs[j := SignalLog(slogs[j], Sync.Signal(s.sems[j]).1)];
      sems[j].Signal(core);
      ghost var s1 := Abs();
      assert s1.sems == s.sems[j := Sync.Signal(s.sems[j]).0];
      assert s1.mutexes == s.mutexes;
      SignalStep(s, s1, j);
      StepInv(s, CallSignal(j));
      DisjointQueues(s);
      StillChained(old(core.waitNext[..]), -1, j, old(sems[j].queue));
    }

    /** mutex_init, while nobody waits. */
    method InitMutexObject(m: nat)
      requires Valid() && Enabled(Abs(), InitMutex(m))
      modifies `calls, `mlogs, mutexes[m]
      ensures Valid() && Abs() == Step(old(Abs()), InitMutex(m))
    {
      hide Tables;
      hide Inv;
      hide Chain;
      ghost var s := Abs();
      InvTables(s);
      ghost var s2 := InitMutexBody(s, m);
      calls := s2.calls;
      mlogs := s2.mlogs;
      mutexes[m].Init();
      assert Abs().mutexes == s2.mutexes;
      assert Abs().sems == s.sems;
      StepInv(s, InitMutex(m));
    }

    /** sem_init, while nobody waits. */
    method InitSemObject(j: nat, value: int)
      requires Valid() && Enabled(Abs(), InitSem(j, value))
      modifies `calls, `slogs, `inits, sems[j]
      ensures Valid() && Abs() == Step(old(Abs()), InitSem(j, value))
    {
      hide Tables;
      hide Inv;
      hide Chain;
      ghost var s := Abs();
      InvTables(s);
      ghost var s2 := InitSemBody(s, j, value);
      calls, slogs, inits := s2.calls, s2.slogs, s2.inits;
      sems[j].Init(value);
      assert Abs().sems == s2.sems;
      assert Abs().mutexes == s.mutexes;
      StepInv(s, InitSem(j, value));
    }

    /** A timer interrupt. */
    method TimerTick(esp: nat) returns (out: nat)
      requires Valid()
      modifies core, core.threads, core.procs
      ensures Valid() && Abs() == Step(old(Abs()), Tick(esp))
      ensures Tables(old(core.State())) && out == Irq(old(core.State()), esp).1
    {
      hide Tables;
      hide Inv;
      hide Chain;
      hide Irq;
      ghost var s := Abs();
      InvTables(s);
      out := core.SchedulerIrq(esp);
      assert Abs() == s.(k := core.State());
      StepInv(s, Tick(esp));
    }

    /** thread_create by the running context: the answer is the new entry, the slot after the last one
        created, or null if fn is null or the table is full. */
    method CreateThread(fn: nat, sp: nat) returns (r: Ptr)
      requires Valid() && Enabled(Abs(), NewThread(sp))
      modifies `calls, core`threadHead, core`nextTid, core.threads, core.waitNext
      ensures Valid() && Abs() == if fn == 0 then old(Abs()) else Step(old(Abs()), NewThread(sp))
      ensures var n := NT(old(core.State()));
        r == if fn == 0 || n == 32 then Null else To(n)
      ensures r.To? ==> NT(core.State()) == r.slot + 1 && core.threads[r.slot].state == TReady
    {
      hide Tables;
      hide Inv;
      hide Chain;
      hide Step;
      hide Sched.CreateThread;
      hide ThreadTable;
      hide ProcTable;
      if fn == 0 {
        return Null;
      }
      ghost var s := Abs();
      InvTables(s);
      calls := Leave(s).calls;
      WaitersExist(s);
      NewSlot(s.k, sp);
      r := core.ThreadCreate(fn, sp);
      assert Abs() == Leave(s).(k := core.State());
      NewThreadStep(s, Abs(), sp);
      StepInv(s, NewThread(sp));
      assert SameQueues(s);
      StillChained(old(core.waitNext[..]), -1, -1, [NT(s.k)]);
    }

    /** thread_exit by the running context. */
    method ExitThread(esp: nat)
      requires Valid() && Enabled(Abs(), ThreadExits(esp))
      modifies `calls, core, core.threads, core.procs
      ensures Valid() && Abs() == Step(old(Abs()), ThreadExits(esp))
    {
      hide Tables;
      hide Inv;
      hide Chain;
      hide Irq;
      hide Sched.ExitThread;
      ghost var s := Abs();
      InvTables(s);
      calls := Leave(s).calls;
      core.ThreadExit(esp);
      assert Abs() == Leave(s).(k := core.State());
      StepInv(s, ThreadExits(esp));
    }

    /** proc_create by kernel_main or the running context; null exactly when the table is full. */
    method CreateProcess(sp: nat) returns (r: Ptr)
      requires Valid() && Enabled(Abs(), NewProcess(sp))
      modifies `calls, core`readyHead, core`nextPid, core.procs
      ensures Valid() && Abs() == Step(old(Abs()), NewProcess(sp))
      ensures var n := NP(old(core.State()));
        r == if n == 16 then Null else To(n)
      ensures r.To? ==> core.procs[r.slot].pid == r.slot + 1 && core.procs[r.slot].state == PReady
    {
      hide Tables;
      hide Inv;
      hide Chain;
      hide Step;
      hide Sched.CreateProcess;
      hide ThreadTable;
      hide ProcTable;
      ghost var s := Abs();
      InvTables(s);
      calls := Leave(s).calls;
      NewSlot(s.k, sp);
      r := core.ProcCreate(sp);
      assert Abs() == Leave(s).(k := core.State());
      NewProcessStep(s, Abs(), sp);
      StepInv(s, NewProcess(sp));
    }

    /** proc_kill by the running context. */
    method Kill(pid: nat, esp: nat) returns (result: int)
      requires Valid() && Enabled(Abs(), KillProcess(pid, esp))
      modifies `calls, core, core.threads, core.procs
      ensures Valid() && Abs() == Step(old(Abs()), KillProcess(pid, esp))
      ensures var created := NP(old(core.State()));
        result == if pid == 1 then -1 else if 1 <= pid <= created || (pid == 0 && created < MAX_PROCESSES) then 1 else 0
    {
      hide Tables;
      hide Inv;
      hide Chain;
      hide Irq;
      hide Sched.Kill;
      ghost var s := Abs();
      InvTables(s);
      InvKernel(s);
      calls := Leave(s).calls;
      result := core.ProcKill(pid, esp);
      KillCode(s.k, pid);
      assert Abs() == Leave(s).(k := core.State());
      StepInv(s, KillProcess(pid, esp));
    }

    /** proc_exit by the running context. */
    method ExitProcess(esp: nat)
      requires Valid() && Enabled(Abs(), ProcessExits(esp))
      modifies `calls, core, core.threads, core.procs
      ensures Valid() && Abs() == Step(old(Abs()), ProcessExits(esp))
    {
      hide Tables;
      hide Inv;
      hide Chain;
      hide Irq;
      hide Sched.ExitProcess;
      ghost var s := Abs();
      InvTables(s);
      calls := Leave(s).calls;
      core.ProcExit(esp);
      assert Abs() == Leave(s).(k := core.State());
      StepInv(s, ProcessExits(esp));
    }
  }

  lemma NewThreadStep(s: Sys, s1: Sys, esp: nat)
    requires Sized(s) && Tables(s.k) && Enabled(s, NewThread(esp))
    requires s1 == Leave(s).(k := Sched.CreateThread(s.k, esp).0)
    ensures s1 == Step(s, NewThread(esp))
  {
    hide Tables;
    hide Sched.CreateThread;
  }

  lemma NewProcessStep(s: Sys, s1: Sys, esp: nat)
    requires Sized(s) && Tables(s.k) && Enabled(s, NewProcess(esp))
    requires s1 == Leave(s).(k := Sched.CreateProcess(s.k, esp).0)
    ensures s1 == Step(s, NewProcess(esp))
  {
    hide Tables;
    hide Sched.CreateProcess;
  }

  /** Where a new thread and a new process go. */
  lemma NewSlot(k: Kernel, esp: nat)
    requires Tables(k)
    ensures var (k1, r) := Sched.CreateThread(k, esp);
      && r == (if NT(k) == 32 then Null else To(NT(k)))
      && (r.To? ==> NT(k1) == NT(k) + 1 && r.slot < |k1.threads| && k1.threads[r.slot].state == TReady)
    ensures var (k1, r) := Sched.CreateProcess(k, esp);
      && r == (if NP(k) == 16 then Null else To(NP(k)))
      && (r.To? ==> r.slot < |k1.procs| && k1.procs[r.slot].pid == r.slot + 1 && k1.procs[r.slot].state == PReady)
  {
    hide Tables;
    TableSizes(k);
    CreateThreadTables(k, esp);
    assert ThreadTable(k) && ProcTable(k) by { SplitTables(k); }
    CreatedThread(k, esp);
    CreatedProcess(k, esp);
  }

  lemma SplitTables(k: Kernel)
    requires Tables(k)
    ensures ThreadTable(k) && ProcTable(k)
  {
    hide ThreadTable;
    hide ProcTable;
  }

  lemma InvKernel(s: Sys)
    requires Inv(s)
    ensures KernelInv(s.k)
  {
  }

  lemma KillCode(k: Kernel, pid: nat)
    requires KernelInv(k)
    ensures Sched.Kill(k, pid).1 ==
      if pid == 1 then -1 else if 1 <= pid <= NP(k) || (pid == 0 && NP(k) < MAX_PROCESSES) then 1 else 0
  {
    ProcFindSlot(k, pid);
  }

  lemma ChainInRange(wn: seq<Ptr>, head: Ptr, tail: Ptr, q: seq<nat>)
    requires Chain(wn, head, tail, q)
    ensures forall t :: t in q ==> t < |wn|
  {
  }

  lemma CallerNotQueued(s: Sys)
    requires Inv(s)
    ensures s.k.thread.To? ==> forall m :: 0 <= m < |s.mutexes| ==> s.k.thread.slot !in s.mutexes[m].queue
    ensures s.k.thread.To? ==> forall j :: 0 <= j < |s.sems| ==> s.k.thread.slot !in s.sems[j].queue
  {
    hide Tables;
    if s.k.thread.To? {
      forall m | 0 <= m < |s.mutexes|
        ensures s.k.thread.slot !in s.mutexes[m].queue
      {
        RunningNotWaiting(s, InLock(m));
      }
      forall j | 0 <= j < |s.sems|
        ensures s.k.thread.slot !in s.sems[j].queue
      {
        RunningNotWaiting(s, InWait(j));
      }
    }
  }

  lemma OneWait(s: Sys, t: nat, c: Call, d: Call)
    requires Inv(s) && Waits(s, t, c) && Waits(s, t, d)
    ensures c == d
  {
    hide Tables;
    hide Objects;
    hide OwnerInv;
    hide Waits;
  }

  /** No thread stands in two queues. */
  lemma DisjointQueues(s: Sys)
    requires Inv(s)
    ensures forall m, n, t ::
      0 <= m < |s.mutexes| && 0 <= n < |s.mutexes| && t in s.mutexes[m].queue && t in s.mutexes[n].queue ==> m == n
    ensures forall j, n, t ::
      0 <= j < |s.sems| && 0 <= n < |s.sems| && t in s.sems[j].queue && t in s.sems[n].queue ==> j == n
    ensures forall m, j, t ::
      0 <= m < |s.mutexes| && 0 <= j < |s.sems| && t in s.mutexes[m].queue ==> t !in s.sems[j].queue
  {
    hide Tables;
    hide Objects;
    hide OwnerInv;
    hide WaitInv;
    forall m, n, t | 0 <= m < |s.mutexes| && 0 <= n < |s.mutexes| && t in s.mutexes[m].queue && t in s.mutexes[n].queue
      ensures m == n
    {
      OneWait(s, t, InLock(m), InLock(n));
    }
    forall j, n, t | 0 <= j < |s.sems| && 0 <= n < |s.sems| && t in s.sems[j].queue && t in s.sems[n].queue
      ensures j == n
    {
      OneWait(s, t, InWait(j), InWait(n));
    }
    forall m, j, t | 0 <= m < |s.mutexes| && 0 <= j < |s.sems| && t in s.mutexes[m].queue
      ensures t !in s.sems[j].queue
    {
      if t in s.sems[j].queue {
        OneWait(s, t, InLock(m), InWait(j));
      }
    }
  }

  lemma WaitersExist(s: Sys)
    requires Inv(s)
    ensures forall m, i :: 0 <= m < |s.mutexes| && 0 <= i < |s.mutexes[m].queue| ==> s.mutexes[m].queue[i] < NT(s.k)
    ensures forall j, i :: 0 <= j < |s.sems| && 0 <= i < |s.sems[j].queue| ==> s.sems[j].queue[i] < NT(s.k)
  {
    hide Tables;
    hide Unblock;
    forall m, i | 0 <= m < |s.mutexes| && 0 <= i < |s.mutexes[m].queue|
      ensures s.mutexes[m].queue[i] < NT(s.k)
    {
      WakeKernel(s, InLock(m), To(s.mutexes[m].queue[i]));
    }
    forall j, i | 0 <= j < |s.sems| && 0 <= i < |s.sems[j].queue|
      ensures s.sems[j].queue[i] < NT(s.k)
    {
      WakeKernel(s, InWait(j), To(s.sems[j].queue[i]));
    }
  }

  lemma LockStep(s: Sys, s1: Sys, m: nat, esp: nat)
    requires Inv(s) && Enabled(s, CallLock(m, esp)) && Sized(s) && Tables(s.k)
    requires s1 == s.(k := s1.k, mutexes := s1.mutexes, calls := s1.calls, mlogs := s1.mlogs)
    requires s1.calls == Entered(s, InLock(m)).calls
    requires s1.mutexes == s.mutexes[m := Sync.Lock(s.mutexes[m], s.k.thread).0]
    requires s1.mlogs == s.mlogs[m := LockLog(s.mlogs[m], s.mutexes[m], s.k.thread)]
    requires s1.k == if Sync.Lock(s.mutexes[m], s.k.thread).1 then Irq(BlockCurrent(s.k), esp).0 else s.k
    ensures s1 == Step(s, CallLock(m, esp))
  {
    hide Irq;
    hide Tables;
    hide Inv;
  }

  lemma UnlockStep(s: Sys, s1: Sys, m: nat)
    requires Inv(s) && Enabled(s, CallUnlock(m)) && Sized(s) && Tables(s.k)
    requires s1 == s.(k := s1.k, mutexes := s1.mutexes, calls := s1.calls, mlogs := s1.mlogs)
    requires s1.calls == Leave(s).calls
    requires s1.mutexes == s.mutexes[m := Sync.Unlock(s.mutexes[m], s.k.thread).0]
    requires s1.mlogs == s.mlogs[m := GrantLog(s.mlogs[m], Sync.Unlock(s.mutexes[m], s.k.thread).1)]
    requires s1.k == Wake(s.k, Sync.Unlock(s.mutexes[m], s.k.thread).1)
    ensures s1 == Step(s, CallUnlock(m))
  {
    hide Tables;
    hide Inv;
  }

  lemma WaitStep(s: Sys, s1: Sys, j: nat, esp: nat)
    requires Inv(s) && Enabled(s, CallWait(j, esp)) && Sized(s) && Tables(s.k)
    requires s1 == s.(k := s1.k, sems := s1.sems, calls := s1.calls, slogs := s1.slogs)
    requires s1.calls == Entered(s, InWait(j)).calls
    requires s1.sems == s.sems[j := Sync.Wait(s.sems[j], s.k.thread).0]
    requires s1.slogs == s.slogs[j := WaitLog(s.slogs[j], s.sems[j], s.k.thread)]
    requires s1.k == if Sync.Wait(s.sems[j], s.k.thread).1 then Irq(BlockCurrent(s.k), esp).0 else s.k
    ensures s1 == Step(s, CallWait(j, esp))
  {
    hide Irq;
    hide Tables;
    hide Inv;
  }

  lemma SignalStep(s: Sys, s1: Sys, j: nat)
    requires Inv(s) && Enabled(s, CallSignal(j)) && Sized(s) && Tables(s.k)
    requires s1 == s.(k := s1.k, sems := s1.sems, calls := s1.calls, slogs := s1.slogs)
    requires s1.calls == Leave(s).calls
    requires s1.sems == s.sems[j := Sync.Signal(s.sems[j]).0]
    requires s1.slogs == s.slogs[j := SignalLog(s.slogs[j], Sync.Signal(s.sems[j]).1)]
    requires s1.k == Wake(s.k, Sync.Signal(s.sems[j]).1)
    ensures s1 == Step(s, CallSignal(j))
  {
    hide Tables;
    hide Inv;
  }
}
