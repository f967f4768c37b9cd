/** scheduler.c, thread.c and process.c as they run: two static tables changed in place, two rings
    linked through `next`, and the scheduler's static variables. Every method is tied to the
    function of the old state that Sched defines. */
module KernelCore {
  import opened Sched

  class Core {
    const threads: array<Tcb>
    const procs: array<Pcb>
    const waitNext: array<Ptr>

    var threadHead: Ptr
    var readyHead: Ptr
    var curThread: Ptr
    var curProc: Ptr
    var kind: Kind
    var preferThread: bool
    var thread: Ptr
    var proc: Ptr
    var nextTid: nat
    var nextPid: nat
    var ticks: nat

    ghost predicate Shape()
      reads this
    {
      && threads.Length == MAX_THREADS && procs.Length == MAX_PROCESSES && waitNext.Length == MAX_THREADS
      && threads as object != procs as object && threads as object != waitNext as object
      && procs as object != waitNext as object
    }

    ghost function State(): Kernel
      reads this, threads, procs
    {
      Kernel(threads[..], procs[..], threadHead, readyHead, curThread, curProc, kind, preferThread,
             thread, proc, nextTid, nextPid, ticks)
    }

    ghost predicate Valid()
      reads this, threads, procs
    {
      Shape() && Tables(State())
    }

    // ---- Rings -------------------------------------------------------------------------

    /** scheduler_add_thread: walks the ring to its last entry and links the new one in. */
    method AddThread(t: nat, ghost n: nat)
      requires Shape() && t == n < MAX_THREADS
      requires threadHead == (if n == 0 then Null else To(0))
      requires forall i :: 0 <= i < n ==> threads[i].next == To(After(i, n))
      modifies `threadHead, threads
      ensures threadHead == To(0)
      ensures var linked := if n == 0 then old(threads[..]) else old(threads[..])[n - 1 := old(threads[n - 1]).(next := To(n))];
        threads[..] == linked[n := linked[n].(next := To(0))]
    {
      if threadHead == Null {
        threadHead := To(t);
        threads[t] := threads[t].(next := To(t));
        return;
      }
      var last := threadHead.slot;
      while threads[last].next != threadHead
        invariant last < n && threads[..] == old(threads[..])
        decreases n - last
      {
        last := threads[last].next.slot;
      }
      threads[last] := threads[last].(next := To(t));
      threads[t] := threads[t].(next := threadHead);
    }

    method AddProcess(p: nat, ghost n: nat)
      requires Shape() && p == n < MAX_PROCESSES
      requires readyHead == (if n == 0 then Null else To(0))
      requires forall i :: 0 <= i < n ==> procs[i].next == To(After(i, n))
      modifies `readyHead, procs
      ensures readyHead == To(0)
      ensures var linked := if n == 0 then old(procs[..]) else old(procs[..])[n - 1 := old(procs[n - 1]).(next := To(n))];
        procs[..] == linked[n := linked[n].(next := To(0))]
    {
      if readyHead == Null {
        readyHead := To(p);
        procs[p] := procs[p].(next := To(p));
        return;
      }
      var last := readyHead.slot;
      while procs[last].next != readyHead
        invariant last < n && procs[..] == old(procs[..])
        decreases n - last
      {
        last := procs[last].next.slot;
      }
      procs[last] := procs[last].(next := To(p));
      procs[p] := procs[p].(next := readyHead);
    }

    /** find_next_thread: once around the ring, from after the current thread. */
    method FindNext() returns (r: Ptr)
      requires Valid()
      ensures r == FindNextThread(State())
    {
      if threadHead == Null { return Null; }
      var next := if curThread.To? then threads[curThread.slot].next else threadHead;
      var start := next;
      ghost var ready := ReadyThreads(State());
      ghost var n := |ready|;
      ghost var steps := 0;
      assert n > 0;
      assert start == To(Start(curThread, n));
      while true
        invariant 0 <= steps < n && next.To? && next.slot < n
        invariant next.slot == if start.slot + steps < n then start.slot + steps else start.slot + steps - n
        invariant FindNextThread(State()) == Scan(ready, next.slot, n - steps)
        decreases n - steps
      {
        if threads[next.slot].state == TReady { return next; }
        assert !ready[next.slot];
        next := threads[next.slot].next;
        steps := steps + 1;
        if next == Null || next == start { break; }
      }
      return Null;
    }

    method FindNextP() returns (r: Ptr)
      requires Valid()
      ensures r == FindNextProcess(State())
    {
      if readyHead == Null { return Null; }
      var next := if curProc.To? then procs[curProc.slot].next else readyHead;
      var start := next;
      ghost var ready := ReadyProcs(State());
      ghost var n := |ready|;
      ghost var steps := 0;
      assert n > 0;
      assert start == To(Start(curProc, n));
      while true
        invariant 0 <= steps < n && next.To? && next.slot < n
        invariant next.slot == if start.slot + steps < n then start.slot + steps else start.slot + steps - n
        invariant FindNextProcess(State()) == Scan(ready, next.slot, n - steps)
        decreases n - steps
      {
        if procs[next.slot].state == PReady { return next; }
        assert !ready[next.slot];
        next := procs[next.slot].next;
        steps := steps + 1;
        if next == Null || next == start { break; }
      }
      return Null;
    }

    // ---- The interrupt -----------------------------------------------------------------

    /** The first half of scheduler_irq. */
    method SaveCurrent(savedEsp: nat)
      requires Valid()
      modifies `ticks, threads, procs
      ensures Valid() && State() == Save(old(State()), savedEsp)
    {
      hide ThreadTable;
      hide ProcTable;
      ghost var k := State();
      SaveTables(k, savedEsp);
      RingOf(k);
      CurrentSlots(k);
      ticks := ticks + 1;
      if kind == Process && curProc.To? {
        var p := curProc.slot;
        procs[p] := procs[p].(esp := savedEsp, ticks := procs[p].ticks + 1);
        if procs[p].state == PRunning {
          procs[p] := procs[p].(state := PReady);
        }
        assert procs[..] == Save(k, savedEsp).procs;
      } else if kind == Thread && curThread.To? {
        var t := curThread.slot;
        threads[t] := threads[t].(esp := savedEsp);
        if threads[t].state == TRunning {
          threads[t] := threads[t].(state := TReady);
        }
        assert threads[..] == Save(k, savedEsp).threads;
      }
    }

    /** The second part: threads and processes take turns. */
    method PickNext() returns (nextThread: Ptr, nextProc: Ptr)
      requires Valid()
      ensures Choose(State()) == if nextThread.To? then RunThread(nextThread.slot)
        else if nextProc.To? then RunProcess(nextProc.slot) else Continue
      ensures InRange(nextThread, NT(State())) && InRange(nextProc, NP(State()))
    {
      hide ThreadTable;
      hide ProcTable;
      hide FindNextThread;
      hide FindNextProcess;
      nextThread, nextProc := Null, Null;
      if preferThread {
        nextThread := FindNext();
        if nextThread == Null { nextProc := FindNextP(); }
      } else {
        nextProc := FindNextP();
        if nextProc == Null { nextThread := FindNext(); }
      }
      assert Choose(State()).RunThread? ==> Choose(State()).t < NT(State());
    }

    /** The last part: marks the entry RUNNING and points every current pointer at it. */
    method SwitchTo(nextThread: Ptr, nextProc: Ptr, savedEsp: nat) returns (out: nat)
      requires Shape() && InRange(nextThread, MAX_THREADS) && InRange(nextProc, MAX_PROCESSES)
      requires ThreadTable(State()) && ProcTable(State()) && InRange(nextThread, NT(State())) && InRange(nextProc, NP(State()))
      modifies this, threads, procs
      ensures (State(), out) == Dispatch(old(State()), if nextThread.To? then RunThread(nextThread.slot)
        else if nextProc.To? then RunProcess(nextProc.slot) else Continue, savedEsp)
    {
      hide ThreadTable;
      hide ProcTable;
      preferThread := !preferThread;
      if nextThread.To? {
        curThread := nextThread;
        threads[curThread.slot] := threads[curThread.slot].(state := TRunning);
        kind := Thread;
        thread := curThread;
        proc := threads[curThread.slot].owner;
        out := threads[curThread.slot].esp;
      } else if nextProc.To? {
        curProc := nextProc;
        procs[curProc.slot] := procs[curProc.slot].(state := PRunning);
        kind := Process;
        proc := curProc;
        thread := Null;
        out := procs[curProc.slot].esp;
      } else {
        out := savedEsp;
      }
    }

    /** scheduler_irq: saves the old context, picks the next, returns its stack pointer. */
    method SchedulerIrq(savedEsp: nat) returns (out: nat)
      requires Valid()
      modifies this, threads, procs
      ensures Valid() && (State(), out) == Irq(old(State()), savedEsp)
    {
      hide ThreadTable;
      hide ProcTable;
      hide Save;
      hide Choose;
      hide Dispatch;
      IrqTables(State(), savedEsp);
      SaveTables(State(), savedEsp);
      SaveCurrent(savedEsp);
      TableSizes(State());
      var nextThread, nextProc := PickNext();
      out := SwitchTo(nextThread, nextProc, savedEsp);
    }

    // ---- Blocking ----------------------------------------------------------------------

    /** scheduler_block_thread. */
    method BlockThread(t: Ptr)
      requires Shape() && InRange(t, MAX_THREADS)
      modifies threads
      ensures State() == if t == Null then old(State()) else Block(old(State()), t.slot)
    {
      if t == Null { return; }
      threads[t.slot] := threads[t.slot].(state := TBlocked);
    }

    /** scheduler_unblock_thread. */
    method UnblockThread(t: Ptr)
      requires Shape() && InRange(t, MAX_THREADS)
      modifies threads
      ensures State() == if t == Null then old(State()) else Unblock(old(State()), t.slot)
    {
      if t == Null { return; }
      if threads[t.slot].state == TBlocked {
        threads[t.slot] := threads[t.slot].(state := TReady);
      }
    }

    // ---- Threads -----------------------------------------------------------------------

    /** find_free_thread: the first UNUSED slot. */
    method FindFreeThread() returns (r: Ptr)
      requires Valid()
      ensures r == if NT(State()) < MAX_THREADS then To(NT(State())) else Null
    {
      var i := 0;
      while i < MAX_THREADS
        invariant 0 <= i <= MAX_THREADS && i <= NT(State())
      {
        if threads[i].state == Unused { return To(i); }
        i := i + 1;
      }
      return Null;
    }

    /** thread_create, given the stack pointer its initial frame ends at; fn == 0 is a null entry. */
    method ThreadCreate(fn: nat, sp: nat) returns (r: Ptr)
      requires Valid()
      modifies `threadHead, `nextTid, threads, waitNext
      ensures Valid()
      ensures fn == 0 ==> State() == old(State()) && r == Null
      ensures fn != 0 ==> (State(), r) == CreateThread(old(State()), sp)
      ensures forall t :: 0 <= t < MAX_THREADS && t != NT(old(State())) ==> waitNext[t] == old(waitNext[t])
    {
      hide ThreadTable;
      hide ProcTable;
      if fn == 0 { return Null; }
      ghost var k := State();
      ghost var n := NT(k);
      CreateThreadTables(k, sp);
      RingOf(k);
      r := FindFreeThread();
      if r == Null { return; }
      threads[r.slot] := Tcb(nextTid, TReady, sp, proc, Null);
      nextTid := nextTid + 1;
      waitNext[r.slot] := Null;
      AddThread(r.slot, n);
      assert threads[..] == CreateThread(k, sp).0.threads;
    }

    /** thread_exit up to and with its yield. */
    method ThreadExit(esp: nat)
      requires Valid()
      modifies this, threads, procs
      ensures Valid()
      ensures State() == ThenIrq(ExitThread(old(State())), esp)
    {
      CurrentInRange(State());
      ghost var k1 := ExitThread(State()).0;
      if thread == Null { return; }
      threads[thread.slot] := threads[thread.slot].(state := Terminated);
      assert State() == k1;
      var out := SchedulerIrq(esp);
    }

    // ---- Processes ---------------------------------------------------------------------

    method FindFreePcb() returns (r: Ptr)
      requires Valid()
      ensures r == if NP(State()) < MAX_PROCESSES then To(NP(State())) else Null
    {
      var i := 0;
      while i < MAX_PROCESSES
        invariant 0 <= i <= MAX_PROCESSES && i <= NP(State())
      {
        if procs[i].pid == 0 { return To(i); }
        i := i + 1;
      }
      return Null;
    }

    /** proc_create, given the stack pointer its initial frame ends at. */
    method ProcCreate(sp: nat) returns (r: Ptr)
      requires Valid()
      modifies `readyHead, `nextPid, procs
      ensures Valid() && (State(), r) == CreateProcess(old(State()), sp)
    {
      hide ThreadTable;
      hide ProcTable;
      ghost var k := State();
      ghost var n := NP(k);
      CreateProcessTables(k, sp);
      RingOf(k);
      r := FindFreePcb();
      if r == Null { return; }
      procs[r.slot] := Pcb(nextPid, PReady, sp, 0, Null);
      nextPid := nextPid + 1;
      AddProcess(r.slot, n);
      assert procs[..] == CreateProcess(k, sp).0.procs;
    }

    /** proc_find. */
    method FindProcess(pid: nat) returns (r: Ptr)
      requires Shape()
      ensures r == ProcFind(procs[..], pid, 0)
    {
      var i := 0;
      while i < MAX_PROCESSES
        invariant 0 <= i <= MAX_PROCESSES
        invariant ProcFind(procs[..], pid, 0) == ProcFind(procs[..], pid, i)
      {
        if procs[i].pid == pid { return To(i); }
        i := i + 1;
      }
      return Null;
    }

    /** proc_kill: 1 killed, 0 no such PID, -1 for the shell. */
    method ProcKill(pid: nat, esp: nat) returns (result: int)
      requires Valid()
      modifies this, threads, procs
      ensures Valid()
      ensures var (k1, code, switches) := Kill(old(State()), pid);
        result == code && State() == ThenIrq((k1, switches), esp)
    {
      ghost var k1 := Kill(State(), pid).0;
      var p := FindProcess(pid);
      if p == Null { return 0; }
      if procs[p.slot].pid == 1 { return -1; }
      procs[p.slot] := procs[p.slot].(state := Zombie);
      assert State() == k1;
      if proc == p {
        var out := SchedulerIrq(esp);
      }
      return 1;
    }

    /** proc_exit up to and with its yield. */
    method ProcExit(esp: nat)
      requires Valid()
      modifies this, threads, procs
      ensures Valid()
      ensures State() == ThenIrq(ExitProcess(old(State())), esp)
    {
      CurrentInRange(State());
      ghost var k1 := ExitProcess(State()).0;
      if proc == Null { return; }
      procs[proc.slot] := procs[proc.slot].(state := Zombie);
      assert State() == k1;
      var out := SchedulerIrq(esp);
    }

    // ---- Start-up ----------------------------------------------------------------------

    constructor ()
      ensures Shape() && fresh(threads) && fresh(procs) && fresh(waitNext)
    {
      threads := new Tcb[MAX_THREADS](_ => Tcb(0, Unused, 0, Null, Null));
      procs := new Pcb[MAX_PROCESSES](_ => Pcb(0, PReady, 0, 0, Null));
      waitNext := new Ptr[MAX_THREADS](_ => Null);
      threadHead, readyHead, curThread, curProc, kind := Null, Null, Null, Null, Boot;
      preferThread, thread, proc, nextTid, nextPid, ticks := false, Null, Null, 1, 1, 0;
    }

    method ThreadInit()
      requires Shape()
      modifies threads, waitNext, `nextTid, `thread
      ensures threads[..] == EmptyKernel().threads && nextTid == 1 && thread == Null
      ensures forall t :: 0 <= t < MAX_THREADS ==> waitNext[t] == Null
    {
      var i := 0;
      while i < MAX_THREADS
        invariant 0 <= i <= MAX_THREADS
        invariant forall t :: 0 <= t < i ==> threads[t] == Tcb(0, Unused, 0, Null, Null) && waitNext[t] == Null
      {
        threads[i] := Tcb(0, Unused, 0, Null, Null);
        waitNext[i] := Null;
        i := i + 1;
      }
      nextTid := 1;
      thread := Null;
    }

    method ProcInit()
      requires Shape()
      modifies procs, `nextPid, `proc
      ensures procs[..] == EmptyKernel().procs && nextPid == 1 && proc == Null
    {
      var i := 0;
      while i < MAX_PROCESSES
        invariant 0 <= i <= MAX_PROCESSES
        invariant forall p :: 0 <= p < i ==> procs[p] == Pcb(0, Zombie, 0, 0, Null)
      {
        procs[i] := Pcb(0, Zombie, 0, 0, Null);
        i := i + 1;
      }
      proc := Null;
      nextPid := 1;
    }

    method SchedulerInit()
      modifies `readyHead, `curProc, `threadHead, `curThread, `kind, `preferThread, `ticks
      ensures readyHead == Null && curProc == Null && threadHead == Null && curThread == Null
      ensures kind == Boot && !preferThread && ticks == 0
    {
      readyHead, curProc := Null, Null;
      threadHead, curThread := Null, Null;
      kind := Boot;
      preferThread := false;
      ticks := 0;
    }

    /** kernel_main up to the creation of the shell, which gets PID 1. */
    method BootShell(sp: nat)
      requires Shape()
      modifies this, threads, procs, waitNext
      ensures Valid() && State() == CreateProcess(EmptyKernel(), sp).0
    {
      ProcInit();
      ThreadInit();
      SchedulerInit();
      assert State() == EmptyKernel();
      var p := ProcCreate(sp);
    }
  }
}
