/** The round-robin scheduler, kernel/scheduler.c, and the two tables it runs over. A pointer into
    a static table is the index of its slot. Table slots are handed out in order and never
    reused, so slot order is creation order. */
module Sched {

  const MAX_THREADS := 32
  const MAX_PROCESSES := 16

  datatype Ptr = Null | To(slot: nat)

  datatype TState = Unused | TReady | TRunning | TBlocked | Terminated
  datatype PState = PReady | PRunning | PBlocked | Zombie

  datatype Tcb = Tcb(tid: nat, state: TState, esp: nat, owner: Ptr, next: Ptr)
  datatype Pcb = Pcb(pid: nat, state: PState, esp: nat, ticks: nat, next: Ptr)

  datatype Kind = Boot | Process | Thread

  /** `curThread`, `curProc` and `kind` are the scheduler's own; `thread` and `proc` are what
      thread_current() and proc_current() answer. */
  datatype Kernel = Kernel(
    threads: seq<Tcb>, procs: seq<Pcb>,
    threadHead: Ptr, readyHead: Ptr,
    curThread: Ptr, curProc: Ptr, kind: Kind, preferThread: bool,
    thread: Ptr, proc: Ptr,
    nextTid: nat, nextPid: nat, ticks: nat)

  // ---- Rings ---------------------------------------------------------------------------

  /** The slot after i in a ring of n. */
  function After(i: nat, n: nat): (r: nat)
    requires i < n
    ensures r < n
  {
    if i + 1 == n then 0 else i + 1
  }

  /** Where a scan starts: after the current entry, or at the head. */
  function Start(cur: Ptr, n: nat): (r: nat)
    requires n > 0 && (cur.To? ==> cur.slot < n)
    ensures r < n
  {
    if cur.To? then After(cur.slot, n) else 0
  }

  /** The first ready entry met in `left` steps from slot i on. */
  function Scan(ready: seq<bool>, i: nat, left: nat): (r: Ptr)
    requires i < |ready|
    ensures r.To? ==> r.slot < |ready| && ready[r.slot]
    decreases left
  {
    if left == 0 then Null
    else if ready[i] then To(i)
    else Scan(ready, After(i, |ready|), left - 1)
  }

  function Next(ready: seq<bool>, cur: Ptr): (r: Ptr)
    requires cur.To? ==> cur.slot < |ready|
    ensures r.To? ==> r.slot < |ready| && ready[r.slot]
  {
    if ready == [] then Null else Scan(ready, Start(cur, |ready|), |ready|)
  }

  /** Steps from slot i to slot t around the ring. */
  function Steps(i: nat, t: nat, n: nat): (d: nat)
    requires i < n && t < n
    ensures d < n
  {
    if t >= i then t - i else t - i + n
  }

  /** A scan stops at the nearest ready entry ahead, and finds none only if there is none. */
  lemma {:induction false} ScanNearest(ready: seq<bool>, i: nat, left: nat, t: nat)
    requires i < |ready| && t < |ready| && ready[t] && Steps(i, t, |ready|) < left <= |ready|
    ensures Scan(ready, i, left).To?
    ensures Steps(i, Scan(ready, i, left).slot, |ready|) <= Steps(i, t, |ready|)
    decreases left
  {
    if !ready[i] {
      ScanNearest(ready, After(i, |ready|), left - 1, t);
    }
  }

  lemma NextNearest(ready: seq<bool>, cur: Ptr, t: nat)
    requires cur.To? ==> cur.slot < |ready|
    requires t < |ready| && ready[t]
    ensures Next(ready, cur).To?
    ensures var i := Start(cur, |ready|);
      Steps(i, Next(ready, cur).slot, |ready|) <= Steps(i, t, |ready|)
  {
    ScanNearest(ready, Start(cur, |ready|), |ready|, t);
  }

  /** Null exactly when no entry is ready. */
  lemma NextNullIff(ready: seq<bool>, cur: Ptr)
    requires cur.To? ==> cur.slot < |ready|
    ensures Next(ready, cur) == Null <==> forall t :: 0 <= t < |ready| ==> !ready[t]
  {
    if t :| 0 <= t < |ready| && ready[t] {
      NextNearest(ready, cur, t);
    }
  }

  /** The entry found is the first ready one in slot order: from the head of the ring if nothing has
      run yet, otherwise from the slot after the current one, around to the current one itself. */
  lemma NextFirst(ready: seq<bool>, cur: Ptr)
    requires cur.To? ==> cur.slot < |ready|
    requires Next(ready, cur).To?
    ensures var t := Next(ready, cur).slot;
      && (cur == Null ==> forall u: nat :: u < t ==> !ready[u])
      && (cur.To? && cur.slot < t ==> forall u: nat :: cur.slot < u < t ==> !ready[u])
      && (cur.To? && t <= cur.slot ==> forall u: nat :: u < |ready| && (u < t || cur.slot < u) ==> !ready[u])
  {
    forall u: nat | u < |ready| && ready[u]
      ensures var t := Next(ready, cur).slot;
        && (cur == Null ==> t <= u)
        && (cur.To? && cur.slot < t ==> u <= cur.slot || t <= u)
        && (cur.To? && t <= cur.slot ==> t <= u <= cur.slot)
    {
      NextNearest(ready, cur, u);
    }
  }

  // ---- Tables and rings ----------------------------------------------------------------

  function NT(k: Kernel): nat { if k.nextTid == 0 then 0 else k.nextTid - 1 }
  function NP(k: Kernel): nat { if k.nextPid == 0 then 0 else k.nextPid - 1 }

  predicate InRange(p: Ptr, n: nat) {
    p.To? ==> p.slot < n
  }

  /** The thread table: the first NT slots were created, in order, and form the run queue's ring. */
  predicate ThreadTable(k: Kernel) {
    && |k.threads| == MAX_THREADS && 1 <= k.nextTid <= MAX_THREADS + 1
    && (forall i :: 0 <= i < MAX_THREADS ==> (k.threads[i].state == Unused <==> i >= NT(k)))
    && (forall i :: 0 <= i < NT(k) ==> k.threads[i].tid == i + 1 && k.threads[i].next == To(After(i, NT(k))))
    && k.threadHead == (if NT(k) == 0 then Null else To(0))
    && InRange(k.curThread, NT(k))
  }

  predicate ProcTable(k: Kernel) {
    && |k.procs| == MAX_PROCESSES && 1 <= k.nextPid <= MAX_PROCESSES + 1
    && (forall i :: 0 <= i < MAX_PROCESSES ==> k.procs[i].pid == if i < NP(k) then i + 1 else 0)
    && (forall i :: 0 <= i < NP(k) ==> k.procs[i].next == To(After(i, NP(k))))
    && k.readyHead == (if NP(k) == 0 then Null else To(0))
    && InRange(k.curProc, NP(k))
  }

  predicate Tables(k: Kernel) {
    && ThreadTable(k) && ProcTable(k)
    && (k.kind == Thread ==> k.curThread.To? && k.thread == k.curThread)
    && (k.kind == Process ==> k.curProc.To? && k.thread == Null)
    && (k.kind == Boot ==> k.thread == Null && k.proc == Null && k.curThread == Null && k.curProc == Null)
    && InRange(k.proc, NP(k))
    && (forall i :: 0 <= i < NT(k) ==> InRange(k.threads[i].owner, NP(k)))
  }

  lemma RingOf(k: Kernel)
    requires Tables(k)
    ensures NT(k) <= MAX_THREADS == |k.threads| && NP(k) <= MAX_PROCESSES == |k.procs|
    ensures k.nextTid == NT(k) + 1 && k.nextPid == NP(k) + 1
    ensures k.threadHead == (if NT(k) == 0 then Null else To(0))
    ensures k.readyHead == (if NP(k) == 0 then Null else To(0))
    ensures forall i :: 0 <= i < NT(k) ==> k.threads[i].next == To(After(i, NT(k)))
    ensures forall i :: 0 <= i < NP(k) ==> k.procs[i].next == To(After(i, NP(k)))
  {
  }

  lemma CurrentSlots(k: Kernel)
    requires Tables(k)
    ensures InRange(k.curThread, NT(k)) && InRange(k.curProc, NP(k))
  {
  }

  function ReadyThreads(k: Kernel): (r: seq<bool>)
    requires ThreadTable(k)
    ensures |r| == NT(k)
  {
    seq(NT(k), i requires 0 <= i < NT(k) => k.threads[i].state == TReady)
  }

  function ReadyProcs(k: Kernel): (r: seq<bool>)
    requires ProcTable(k)
    ensures |r| == NP(k)
  {
    seq(NP(k), i requires 0 <= i < NP(k) => k.procs[i].state == PReady)
  }

  function FindNextThread(k: Kernel): Ptr
    requires ThreadTable(k)
  {
    Next(ReadyThreads(k), k.curThread)
  }

  function FindNextProcess(k: Kernel): Ptr
    requires ProcTable(k)
  {
    Next(ReadyProcs(k), k.curProc)
  }

  /** What proc_init, thread_init and scheduler_init leave. */
  function EmptyKernel(): Kernel {
    Kernel(seq(MAX_THREADS, i => Tcb(0, Unused, 0, Null, Null)), seq(MAX_PROCESSES, i => Pcb(0, Zombie, 0, 0, Null)),
           Null, Null, Null, Null, Boot, false, Null, Null, 1, 1, 0)
  }

  // ---- Creating entries ----------------------------------------------------------------

  /** find_free_thread, the new entry, and scheduler_add_thread. */
  function CreateThread(k: Kernel, esp: nat): (r: (Kernel, Ptr))
    requires ThreadTable(k)
  {
    var n := NT(k);
    if n == MAX_THREADS then (k, Null)
    else
      var linked := if n == 0 then k.threads else k.threads[n - 1 := k.threads[n - 1].(next := To(n))];
      (k.(threads := linked[n := Tcb(k.nextTid, TReady, esp, k.proc, To(0))], threadHead := To(0),
          nextTid := k.nextTid + 1), To(n))
  }

  function CreateProcess(k: Kernel, esp: nat): (r: (Kernel, Ptr))
    requires ProcTable(k)
  {
    var n := NP(k);
    if n == MAX_PROCESSES then (k, Null)
    else
      var linked := if n == 0 then k.procs else k.procs[n - 1 := k.procs[n - 1].(next := To(n))];
      (k.(procs := linked[n := Pcb(k.nextPid, PReady, esp, 0, To(0))], readyHead := To(0),
          nextPid := k.nextPid + 1), To(n))
  }

  /** The new thread belongs to the process that was current, and nothing else moves but the link
      of the entry that was last. */
  lemma CreatedThread(k: Kernel, esp: nat)
    requires ThreadTable(k)
    ensures var (k1, r) := CreateThread(k, esp);
      && (r == Null <==> NT(k) == MAX_THREADS)
      && (r == Null ==> k1 == k)
      && (r.To? ==>
        && r.slot == NT(k) && k.threads[r.slot].state == Unused
        && k1.threads[r.slot].state == TReady && k1.threads[r.slot].esp == esp
        && k1.threads[r.slot].owner == k.proc && k1.threads[r.slot].tid == NT(k) + 1
        && (forall t: nat :: t < MAX_THREADS && t != r.slot ==> k1.threads[t] == k.threads[t].(next := k1.threads[t].next))
        && (forall t: nat :: t < MAX_THREADS && t + 1 < r.slot ==> k1.threads[t] == k.threads[t])
        && k1.procs == k.procs && k1.ticks == k.ticks)
  {
  }

  lemma CreatedProcess(k: Kernel, esp: nat)
    requires ProcTable(k)
    ensures var (k1, r) := CreateProcess(k, esp);
      && (r == Null <==> NP(k) == MAX_PROCESSES)
      && (r == Null ==> k1 == k)
      && (r.To? ==>
        && r.slot == NP(k) && k.procs[r.slot].pid == 0
        && k1.procs[r.slot].state == PReady && k1.procs[r.slot].esp == esp
        && k1.procs[r.slot].pid == NP(k) + 1 && k1.procs[r.slot].ticks == 0
        && (forall p: nat :: p < MAX_PROCESSES && p != r.slot ==> k1.procs[p] == k.procs[p].(next := k1.procs[p].next))
        && (forall p: nat :: p < MAX_PROCESSES && p + 1 < r.slot ==> k1.procs[p] == k.procs[p])
        && k1.threads == k.threads && k1.ticks == k.ticks)
  {
  }

  // ---- The interrupt -------------------------------------------------------------------

  /** Saves the context that was running; a RUNNING entry becomes READY again. */
  function Save(k: Kernel, esp: nat): Kernel
    requires Tables(k)
  {
    var k1 := k.(ticks := k.ticks + 1);
    match k.kind
    case Process =>
      var p := k.procs[k.curProc.slot];
      k1.(procs := k.procs[k.curProc.slot := p.(
        esp := esp, ticks := p.ticks + 1, state := if p.state == PRunning then PReady else p.state)])
    case Thread =>
      var t := k.threads[k.curThread.slot];
      k1.(threads := k.threads[k.curThread.slot := t.(
        esp := esp, state := if t.state == TRunning then TReady else t.state)])
    case Boot => k1
  }

  lemma SaveTables(k: Kernel, esp: nat)
    requires Tables(k)
    ensures Tables(Save(k, esp)) && NT(Save(k, esp)) == NT(k) && NP(Save(k, esp)) == NP(k)
  {
  }

  datatype Choice = RunThread(t: nat) | RunProcess(p: nat) | Continue

  /** Threads and processes take turns; if the preferred kind has nothing ready, the other runs. */
  function Choose(k: Kernel): (c: Choice)
    requires ThreadTable(k) && ProcTable(k)
    ensures c.RunThread? ==> c.t < NT(k) && k.threads[c.t].state == TReady
    ensures c.RunProcess? ==> c.p < NP(k) && k.procs[c.p].state == PReady
  {
    var t, p := FindNextThread(k), FindNextProcess(k);
    if k.preferThread then
      if t.To? then RunThread(t.slot) else if p.To? then RunProcess(p.slot) else Continue
    else
      if p.To? then RunProcess(p.slot) else if t.To? then RunThread(t.slot) else Continue
  }

  function Dispatch(k: Kernel, c: Choice, esp: nat): (Kernel, nat)
    requires ThreadTable(k) && ProcTable(k)
    requires c.RunThread? ==> c.t < NT(k)
    requires c.RunProcess? ==> c.p < NP(k)
  {
    var k1 := k.(preferThread := !k.preferThread);
    match c
    case RunThread(t) =>
      (k1.(threads := k.threads[t := k.threads[t].(state := TRunning)], curThread := To(t), kind := Thread,
           thread := To(t), proc := k.threads[t].owner), k.threads[t].esp)
    case RunProcess(p) =>
      (k1.(procs := k.procs[p := k.procs[p].(state := PRunning)], curProc := To(p), kind := Process,
           thread := Null, proc := To(p)), k.procs[p].esp)
    case Continue => (k1, esp)
  }

  /** scheduler_irq: the new kernel and the stack pointer to resume on. */
  function Irq(k: Kernel, esp: nat): (Kernel, nat)
    requires Tables(k)
  {
    SaveTables(k, esp);
    var k1 := Save(k, esp);
    Dispatch(k1, Choose(k1), esp)
  }

  /** With nothing READY the old context simply continues; that is the only way it can. */
  lemma ContinueIff(k: Kernel)
    requires ThreadTable(k) && ProcTable(k)
    ensures Choose(k) == Continue <==>
      (forall t :: 0 <= t < NT(k) ==> k.threads[t].state != TReady) &&
      (forall p :: 0 <= p < NP(k) ==> k.procs[p].state != PReady)
  {
    NextNullIff(ReadyThreads(k), k.curThread);
    NextNullIff(ReadyProcs(k), k.curProc);
    if t :| 0 <= t < NT(k) && k.threads[t].state == TReady {
      assert ReadyThreads(k)[t];
    }
    if p :| 0 <= p < NP(k) && k.procs[p].state == PReady {
      assert ReadyProcs(k)[p];
    }
  }

  lemma DispatchTables(k: Kernel, c: Choice, esp: nat)
    requires Tables(k)
    requires c.RunThread? ==> c.t < NT(k) && k.threads[c.t].state == TReady
    requires c.RunProcess? ==> c.p < NP(k)
    ensures var k1 := Dispatch(k, c, esp).0; Tables(k1) && NT(k1) == NT(k) && NP(k1) == NP(k)
  {
  }

  lemma IrqTables(k: Kernel, esp: nat)
    requires Tables(k)
    ensures Tables(Irq(k, esp).0) && NT(Irq(k, esp).0) == NT(k) && NP(Irq(k, esp).0) == NP(k)
  {
    hide Choose;
    hide Dispatch;
    hide Save;
    SaveTables(k, esp);
    DispatchTables(Save(k, esp), Choose(Save(k, esp)), esp);
  }

  lemma CreateThreadTables(k: Kernel, esp: nat)
    requires Tables(k)
    ensures Tables(CreateThread(k, esp).0)
    ensures NT(CreateThread(k, esp).0) == if NT(k) == MAX_THREADS then NT(k) else NT(k) + 1
  {
  }

  lemma CreateProcessTables(k: Kernel, esp: nat)
    requires Tables(k)
    ensures Tables(CreateProcess(k, esp).0)
    ensures NP(CreateProcess(k, esp).0) == if NP(k) == MAX_PROCESSES then NP(k) else NP(k) + 1
  {
  }

  // ---- State changes asked for by the other subsystems ---------------------------------

  function SetState(k: Kernel, t: nat, st: TState): Kernel
    requires t < |k.threads|
  {
    k.(threads := k.threads[t := k.threads[t].(state := st)])
  }

  function Block(k: Kernel, t: nat): Kernel
    requires t < |k.threads|
  {
    SetState(k, t, TBlocked)
  }

  /** Only a BLOCKED thread is made READY. */
  function Unblock(k: Kernel, t: nat): Kernel
    requires t < |k.threads|
  {
    if k.threads[t].state == TBlocked then SetState(k, t, TReady) else k
  }

  /** A wake-up makes the thread READY if it is BLOCKED, and touches nothing otherwise; blocking is
      unconditional. */
  lemma BlockAndWake(k: Kernel, t: nat)
    requires t < |k.threads|
    ensures Block(k, t) == k.(threads := k.threads[t := k.threads[t].(state := TBlocked)])
    ensures k.threads[t].state == TBlocked ==>
      Wake(k, To(t)) == k.(threads := k.threads[t := k.threads[t].(state := TReady)])
    ensures k.threads[t].state != TBlocked ==> Wake(k, To(t)) == k
    ensures Wake(k, Null) == k
  {
  }

  lemma SetStateTables(k: Kernel, t: nat, st: TState)
    requires Tables(k) && t < NT(k) && st != Unused
    ensures Tables(SetState(k, t, st)) && NT(SetState(k, t, st)) == NT(k) && NP(SetState(k, t, st)) == NP(k)
  {
  }

  lemma BuryTables(k: Kernel, p: nat)
    requires Tables(k) && p < MAX_PROCESSES
    ensures Tables(Bury(k, p)) && NT(Bury(k, p)) == NT(k) && NP(Bury(k, p)) == NP(k)
  {
  }

  lemma CurrentInRange(k: Kernel)
    requires Tables(k)
    ensures InRange(k.thread, NT(k)) && InRange(k.proc, NP(k)) && NT(k) <= |k.threads| && NP(k) <= |k.procs|
    ensures k.thread.To? ==> k.thread == k.curThread && k.kind == Thread
  {
  }

  /** scheduler_block_thread on the running thread. */
  function BlockCurrent(k: Kernel): (r: Kernel)
    requires Tables(k) && k.thread.To?
    ensures Tables(r)
  {
    CurrentInRange(k);
    SetStateTables(k, k.thread.slot, TBlocked);
    Block(k, k.thread.slot)
  }

  /** scheduler_unblock_thread. */
  function Wake(k: Kernel, woken: Ptr): Kernel {
    if woken.To? && woken.slot < |k.threads| then Unblock(k, woken.slot) else k
  }

  /** thread_exit up to its yield, and whether it yields. */
  function ExitThread(k: Kernel): (r: (Kernel, bool))
    requires Tables(k)
    ensures Tables(r.0)
  {
    CurrentInRange(k);
    if k.thread == Null then (k, false)
    else SetStateTables(k, k.thread.slot, Terminated); (SetState(k, k.thread.slot, Terminated), true)
  }

  /** The first slot from i on that holds this PID. */
  function ProcFind(procs: seq<Pcb>, pid: nat, i: nat): (r: Ptr)
    requires i <= |procs|
    ensures r.To? ==> i <= r.slot < |procs| && procs[r.slot].pid == pid
    ensures r.To? ==> forall j :: i <= j < r.slot ==> procs[j].pid != pid
    ensures r == Null ==> forall j :: i <= j < |procs| ==> procs[j].pid != pid
    decreases |procs| - i
  {
    if i == |procs| then Null
    else if procs[i].pid == pid then To(i)
    else ProcFind(procs, pid, i + 1)
  }

  function Bury(k: Kernel, p: nat): Kernel
    requires p < |k.procs|
  {
    k.(procs := k.procs[p := k.procs[p].(state := Zombie)])
  }

  /** With the table filled in creation order, the slot found is the PID's own; PID 0 finds the first
      unused slot. */
  lemma ProcFindSlot(k: Kernel, pid: nat)
    requires ProcTable(k)
    ensures ProcFind(k.procs, pid, 0) ==
      if 1 <= pid <= NP(k) then To(pid - 1) else if pid == 0 && NP(k) < MAX_PROCESSES then To(NP(k)) else Null
  {
    if 1 <= pid <= NP(k) {
      assert k.procs[pid - 1].pid == pid;
    } else if pid == 0 && NP(k) < MAX_PROCESSES {
      assert k.procs[NP(k)].pid == 0;
    }
  }

  /** proc_kill: the kernel before a yield, the result, and whether it yields. */
  function Kill(k: Kernel, pid: nat): (r: (Kernel, int, bool))
    requires Tables(k)
    ensures Tables(r.0)
  {
    ProcFindSlot(k, pid);
    var p := ProcFind(k.procs, pid, 0);
    if p == Null then (k, 0, false)
    else if k.procs[p.slot].pid == 1 then (k, -1, false)
    else BuryTables(k, p.slot); (Bury(k, p.slot), 1, k.proc == p)
  }

  /** The result 1 should mean that a process was killed. It does for every PID but one: for PID 0,
      while a slot is unused, the answer is 1 though no process has that PID and none is touched. */
  lemma KillReportsExactly(k: Kernel, pid: nat)
    requires Tables(k)
    ensures var (k1, code, _) := Kill(k, pid);
      var kills := pid != 1 && exists p :: 0 <= p < NP(k) && k.procs[p].pid == pid;
      && ((code == 1 <==> kills) <==> !(pid == 0 && NP(k) < MAX_PROCESSES))
      && |k1.procs| == |k.procs|
      && forall p :: 0 <= p < NP(k) ==>
           k1.procs[p] == if kills && k.procs[p].pid == pid then k.procs[p].(state := Zombie) else k.procs[p]
  {
    ProcFindSlot(k, pid);
    if 1 <= pid <= NP(k) {
      assert k.procs[pid - 1].pid == pid;
    }
  }

  /** proc_exit up to its yield, and whether it yields. */
  function ExitProcess(k: Kernel): (r: (Kernel, bool))
    requires Tables(k)
    ensures Tables(r.0)
  {
    CurrentInRange(k);
    if k.proc == Null then (k, false)
    else BuryTables(k, k.proc.slot); (Bury(k, k.proc.slot), true)
  }

  /** The kernel after a body that may end in a yield. */
  function ThenIrq(r: (Kernel, bool), esp: nat): Kernel
    requires Tables(r.0)
  {
    if r.1 then Irq(r.0, esp).0 else r.0
  }

  // ---- Who is running ------------------------------------------------------------------

  predicate NoneRuns(k: Kernel) {
    && (forall t :: 0 <= t < |k.threads| ==> k.threads[t].state != TRunning)
    && (forall p :: 0 <= p < |k.procs| ==> k.procs[p].state != PRunning)
  }

  /** Nothing but the current context is marked RUNNING. */
  predicate OnlyCurrentRuns(k: Kernel) {
    && (forall t: nat :: t < |k.threads| && k.threads[t].state == TRunning ==> k.kind == Thread && k.curThread == To(t))
    && (forall p: nat :: p < |k.procs| && k.procs[p].state == PRunning ==> k.kind == Process && k.curProc == To(p))
  }

  predicate ThreadRuns(k: Kernel, t: nat) {
    && t < |k.threads| && k.threads[t].state == TRunning
    && k.curThread == To(t) && k.thread == To(t) && k.proc == k.threads[t].owner
  }

  predicate ProcessRuns(k: Kernel, p: nat) {
    p < |k.procs| && k.procs[p].state == PRunning && k.curProc == To(p) && k.proc == To(p) && k.thread == Null
  }

  /** The current context is RUNNING, nothing else is, and every current pointer names it. */
  predicate Settled(k: Kernel)
    requires Tables(k)
  {
    && OnlyCurrentRuns(k)
    && (k.kind == Thread ==> ThreadRuns(k, k.curThread.slot))
    && (k.kind == Process ==> ProcessRuns(k, k.curProc.slot))
  }

  /** PID 1 can always run, and no process ever blocks. */
  predicate ShellAlive(k: Kernel) {
    && |k.procs| == MAX_PROCESSES && 1 <= NP(k)
    && (k.procs[0].state == PReady || k.procs[0].state == PRunning)
    && (forall p :: 0 <= p < |k.procs| ==> k.procs[p].state != PBlocked)
  }

  function Rested(st: TState): TState { if st == TRunning then TReady else st }
  function RestedP(st: PState): PState { if st == PRunning then PReady else st }

  /** How an interrupt moves the states: the one that ran is READY again, the one chosen was
      READY and runs, nothing else moves. */
  predicate ThreadsSwitched(k: Kernel, k1: Kernel)
    requires |k.threads| == |k1.threads|
  {
    && (forall t :: 0 <= t < |k.threads| ==>
      k1.threads[t].state == if k1.thread == To(t) then TRunning else Rested(k.threads[t].state))
    && (k1.thread.To? ==> k1.thread.slot < |k.threads| && Rested(k.threads[k1.thread.slot].state) == TReady)
  }

  predicate ProcsSwitched(k: Kernel, k1: Kernel)
    requires |k.procs| == |k1.procs|
  {
    && (forall p :: 0 <= p < |k.procs| ==>
      k1.procs[p].state == if k1.kind == Process && k1.curProc == To(p) then PRunning else RestedP(k.procs[p].state))
    && (k1.kind == Process ==>
      k1.curProc.To? && k1.curProc.slot < |k.procs| && RestedP(k.procs[k1.curProc.slot].state) == PReady)
  }

  /** k1 is k with every RUNNING entry READY again. */
  predicate AllRested(k: Kernel, k1: Kernel) {
    && |k1.threads| == |k.threads| && |k1.procs| == |k.procs| && NT(k1) == NT(k) && NP(k1) == NP(k)
    && (forall t :: 0 <= t < |k.threads| ==> k1.threads[t].state == Rested(k.threads[t].state))
    && (forall p :: 0 <= p < |k.procs| ==> k1.procs[p].state == RestedP(k.procs[p].state))
  }

  lemma SaveThreads(k: Kernel, esp: nat)
    requires Tables(k) && OnlyCurrentRuns(k)
    ensures |Save(k, esp).threads| == |k.threads| && NT(Save(k, esp)) == NT(k)
    ensures forall t :: 0 <= t < |k.threads| ==> Save(k, esp).threads[t].state == Rested(k.threads[t].state)
  {
  }

  lemma SaveProcs(k: Kernel, esp: nat)
    requires Tables(k) && OnlyCurrentRuns(k)
    ensures |Save(k, esp).procs| == |k.procs| && NP(Save(k, esp)) == NP(k)
    ensures forall p :: 0 <= p < |k.procs| ==> Save(k, esp).procs[p].state == RestedP(k.procs[p].state)
  {
  }

  lemma SaveStates(k: Kernel, esp: nat)
    requires Tables(k) && OnlyCurrentRuns(k)
    ensures AllRested(k, Save(k, esp))
  {
    hide Tables;
    hide OnlyCurrentRuns;
    hide Save;
    hide Rested;
    hide RestedP;
    SaveThreads(k, esp);
    SaveProcs(k, esp);
  }

  lemma SwitchAfterSave(k: Kernel, k0: Kernel, k1: Kernel)
    requires AllRested(k, k0) && |k1.threads| == |k.threads| && |k1.procs| == |k.procs| && NP(k1) == NP(k)
    requires ThreadsSwitched(k0, k1) && ProcsSwitched(k0, k1) && ShellAlive(k)
    ensures ThreadsSwitched(k, k1) && ProcsSwitched(k, k1) && ShellAlive(k1)
  {
  }

  /** The fallback, exactly: the old context goes on, whatever its state, only when nothing is
      READY or RUNNING. A BLOCKED or TERMINATED thread is resumed in just that case. */
  lemma FallbackIff(k: Kernel, esp: nat)
    requires Tables(k) && OnlyCurrentRuns(k)
    ensures var (k1, out) := Irq(k, esp);
      (forall t :: 0 <= t < NT(k) ==> Rested(k.threads[t].state) != TReady) &&
      (forall p :: 0 <= p < NP(k) ==> RestedP(k.procs[p].state) != PReady)
      <==> NoneRuns(k1)
    ensures NoneRuns(Irq(k, esp).0) ==> Irq(k, esp) == (Save(k, esp).(preferThread := !k.preferThread), esp)
  {
    hide Choose;
    hide Save;
    hide Dispatch;
    hide ThreadTable;
    hide ProcTable;
    SaveTables(k, esp);
    SaveStates(k, esp);
    TableSizes(k);
    var k0 := Save(k, esp);
    ContinueIff(k0);
    DispatchRuns(k0, Choose(k0), esp);
    SavePrefer(k, esp);
  }

  lemma DispatchRuns(k: Kernel, c: Choice, esp: nat)
    requires Tables(k) && NoneRuns(k)
    requires c.RunThread? ==> c.t < NT(k)
    requires c.RunProcess? ==> c.p < NP(k)
    ensures NoneRuns(Dispatch(k, c, esp).0) <==> c == Continue
    ensures c == Continue ==> Dispatch(k, c, esp) == (k.(preferThread := !k.preferThread), esp)
  {
    match c
    case RunThread(t) => assert Dispatch(k, c, esp).0.threads[t].state == TRunning;
    case RunProcess(p) => assert Dispatch(k, c, esp).0.procs[p].state == PRunning;
    case Continue =>
  }

  lemma SavePrefer(k: Kernel, esp: nat)
    requires Tables(k)
    ensures Save(k, esp).preferThread == k.preferThread
  {
  }

  lemma TableSizes(k: Kernel)
    requires Tables(k)
    ensures |k.threads| == MAX_THREADS && |k.procs| == MAX_PROCESSES
    ensures NT(k) <= MAX_THREADS && NP(k) <= MAX_PROCESSES
  {
  }

  lemma DispatchStates(k: Kernel, c: Choice, esp: nat)
    requires Tables(k) && NoneRuns(k) && c != Continue
    requires c.RunThread? ==> c.t < NT(k) && k.threads[c.t].state == TReady
    requires c.RunProcess? ==> c.p < NP(k) && k.procs[c.p].state == PReady
    ensures var k1 := Dispatch(k, c, esp).0;
      Tables(k1) && Settled(k1) && k1.kind != Boot && ThreadsSwitched(k, k1) && ProcsSwitched(k, k1)
  {
    hide ThreadTable;
    hide ProcTable;
    TableSizes(k);
    DispatchTables(k, c, esp);
    TableSizes(Dispatch(k, c, esp).0);
  }

  /** While PID 1 lives, an interrupt never falls back: exactly one context is RUNNING after it. */
  lemma IrqStates(k: Kernel, esp: nat)
    requires Tables(k) && OnlyCurrentRuns(k) && ShellAlive(k)
    ensures var k1 := Irq(k, esp).0;
      && Tables(k1) && NT(k1) == NT(k) && NP(k1) == NP(k) && |k1.threads| == |k.threads| && |k1.procs| == |k.procs|
      && Settled(k1) && ShellAlive(k1) && k1.kind != Boot && ThreadsSwitched(k, k1) && ProcsSwitched(k, k1)
  {
    hide Choose;
    hide Save;
    hide Dispatch;
    hide ThreadTable;
    hide ProcTable;
    hide ThreadsSwitched;
    hide ProcsSwitched;
    hide Settled;
    IrqTables(k, esp);
    SaveTables(k, esp);
    var k0 := Save(k, esp);
    SaveStates(k, esp);
    TableSizes(k);
    assert NoneRuns(k0);
    assert k0.procs[0].state == PReady;
    ContinueIff(k0);
    DispatchStates(k0, Choose(k0), esp);
    TableSizes(Irq(k, esp).0);
    SwitchAfterSave(k, k0, Irq(k, esp).0);
  }

  lemma SaveCharges(k: Kernel, esp: nat)
    requires Tables(k)
    ensures var k1 := Save(k, esp);
      && k1.ticks == k.ticks + 1 && |k1.procs| == |k.procs|
      && forall p :: 0 <= p < |k.procs| ==>
        k1.procs[p].ticks == k.procs[p].ticks + if k.kind == Process && k.curProc == To(p) then 1 else 0
  {
  }

  lemma DispatchFree(k: Kernel, c: Choice, esp: nat)
    requires ThreadTable(k) && ProcTable(k)
    requires c.RunThread? ==> c.t < NT(k)
    requires c.RunProcess? ==> c.p < NP(k)
    ensures var k1 := Dispatch(k, c, esp).0;
      && k1.ticks == k.ticks && |k1.procs| == |k.procs|
      && forall p :: 0 <= p < |k.procs| ==> k1.procs[p].ticks == k.procs[p].ticks
  {
  }

  /** Each interrupt is counted once, and charged to the process it interrupts, if any. */
  lemma IrqCharges(k: Kernel, esp: nat)
    requires Tables(k)
    ensures var k1 := Irq(k, esp).0;
      && k1.ticks == k.ticks + 1 && |k1.procs| == |k.procs|
      && forall p :: 0 <= p < |k.procs| ==>
        k1.procs[p].ticks == k.procs[p].ticks + if k.kind == Process && k.curProc == To(p) then 1 else 0
  {
    hide Choose;
    hide Save;
    hide Dispatch;
    hide ThreadTable;
    hide ProcTable;
    SaveTables(k, esp);
    SaveCharges(k, esp);
    DispatchFree(Save(k, esp), Choose(Save(k, esp)), esp);
  }

  // ---- Which entry runs next -----------------------------------------------------------

  /** Can run after the interrupt: READY, or RUNNING and about to be READY again. */
  predicate ThreadCanRun(k: Kernel, t: nat) {
    t < NT(k) && t < |k.threads| && (k.threads[t].state == TReady || k.threads[t].state == TRunning)
  }

  predicate ProcCanRun(k: Kernel, p: nat) {
    p < NP(k) && p < |k.procs| && (k.procs[p].state == PReady || k.procs[p].state == PRunning)
  }

  lemma SaveReady(k: Kernel, esp: nat)
    requires Tables(k) && OnlyCurrentRuns(k)
    ensures Tables(Save(k, esp)) && Save(k, esp).curThread == k.curThread && Save(k, esp).curProc == k.curProc
    ensures |ReadyThreads(Save(k, esp))| == NT(k) && |ReadyProcs(Save(k, esp))| == NP(k)
    ensures forall t :: 0 <= t < NT(k) ==> ReadyThreads(Save(k, esp))[t] == ThreadCanRun(k, t)
    ensures forall p :: 0 <= p < NP(k) ==> ReadyProcs(Save(k, esp))[p] == ProcCanRun(k, p)
  {
    hide ThreadTable;
    hide ProcTable;
    SaveTables(k, esp);
    SaveStates(k, esp);
    TableSizes(k);
  }

  lemma DispatchKind(k: Kernel, c: Choice, esp: nat)
    requires ThreadTable(k) && ProcTable(k)
    requires c.RunThread? ==> c.t < NT(k)
    requires c.RunProcess? ==> c.p < NP(k)
    ensures var k1 := Dispatch(k, c, esp).0;
      && k1.preferThread == !k.preferThread
      && (c.RunThread? ==> k1.kind == Thread && k1.curThread == To(c.t) && k1.curProc == k.curProc)
      && (c.RunProcess? ==> k1.kind == Process && k1.curProc == To(c.p) && k1.curThread == k.curThread)
      && (c.Continue? ==> k1.kind == k.kind && k1.curThread == k.curThread && k1.curProc == k.curProc)
  {
  }

  /** What one interrupt picks. Threads and processes are preferred in turn, and the other kind runs
      only if the preferred one has nothing that can. The thread picked is the first that can run in
      slot order: slot 0, 1, .. while no thread has run yet, and c + 1, .., last, 0, .., c after
      thread c. */
  lemma ThreadPicked(k: Kernel, esp: nat)
    requires Tables(k) && OnlyCurrentRuns(k)
    ensures var k1 := Irq(k, esp).0;
      && k1.preferThread == !k.preferThread
      && ((exists t: nat :: ThreadCanRun(k, t)) && (k.preferThread || forall p: nat :: !ProcCanRun(k, p)) ==>
        && k1.kind == Thread && k1.curThread.To? && k1.curProc == k.curProc
        && var t := k1.curThread.slot;
        && ThreadCanRun(k, t)
        && (k.curThread == Null ==> forall u: nat :: u < t ==> !ThreadCanRun(k, u))
        && (k.curThread.To? && k.curThread.slot < t ==>
              forall u: nat :: k.curThread.slot < u < t ==> !ThreadCanRun(k, u))
        && (k.curThread.To? && t <= k.curThread.slot ==>
              forall u: nat :: u < t || k.curThread.slot < u ==> !ThreadCanRun(k, u)))
  {
    hide ThreadTable;
    hide ProcTable;
    hide Save;
    hide Dispatch;
    hide Next;
    SaveReady(k, esp);
    SavePrefer(k, esp);
    var k0 := Save(k, esp);
    DispatchKind(k0, Choose(k0), esp);
    CurrentSlots(k);
    NextNullIff(ReadyThreads(k0), k.curThread);
    NextNullIff(ReadyProcs(k0), k.curProc);
    if t: nat :| ThreadCanRun(k, t) {
      assert ReadyThreads(k0)[t];
      NextFirst(ReadyThreads(k0), k.curThread);
    }
  }

  /** The same for processes, preferred on every other interrupt. */
  lemma ProcessPicked(k: Kernel, esp: nat)
    requires Tables(k) && OnlyCurrentRuns(k)
    ensures var k1 := Irq(k, esp).0;
      (exists p: nat :: ProcCanRun(k, p)) && (!k.preferThread || forall t: nat :: !ThreadCanRun(k, t)) ==>
        && k1.kind == Process && k1.curProc.To? && k1.curThread == k.curThread
        && var p := k1.curProc.slot;
        && ProcCanRun(k, p)
        && (k.curProc == Null ==> forall q: nat :: q < p ==> !ProcCanRun(k, q))
        && (k.curProc.To? && k.curProc.slot < p ==>
              forall q: nat :: k.curProc.slot < q < p ==> !ProcCanRun(k, q))
        && (k.curProc.To? && p <= k.curProc.slot ==>
              forall q: nat :: q < p || k.curProc.slot < q ==> !ProcCanRun(k, q))
  {
    hide ThreadTable;
    hide ProcTable;
    hide Save;
    hide Dispatch;
    hide Next;
    SaveReady(k, esp);
    SavePrefer(k, esp);
    var k0 := Save(k, esp);
    DispatchKind(k0, Choose(k0), esp);
    CurrentSlots(k);
    NextNullIff(ReadyThreads(k0), k.curThread);
    NextNullIff(ReadyProcs(k0), k.curProc);
    if p: nat :| ProcCanRun(k, p) {
      assert ReadyProcs(k0)[p];
      NextFirst(ReadyProcs(k0), k.curProc);
    }
  }

  /** Start-up: the shell is the one process, READY; nothing runs, and the first turn is a process's. */
  lemma StartedAs(esp: nat)
    ensures var k := CreateProcess(EmptyKernel(), esp).0;
      && k.kind == Boot && !k.preferThread && k.ticks == 0
      && k.thread == k.proc == k.curThread == k.curProc == k.threadHead == Null && k.readyHead == To(0)
      && |k.threads| == 32 && (forall t :: 0 <= t < 32 ==> k.threads[t].state == Unused)
      && |k.procs| == 16 && k.procs[0] == Pcb(1, PReady, esp, 0, To(0)) && k.nextTid == 1 && k.nextPid == 2
      && (forall p :: 1 <= p < 16 ==> k.procs[p].pid == 0)
  {
  }
}
