/** Every event of the whole system is, on the machine, a change of kernel data that no context
    notices, followed by at most one interrupt, or the creation of a context; and every run of System
    whose stack pointers are the machine's is a run of Switching, with the same kernel. */
module SystemContexts {
  import opened Sched
  import opened Sync
  import opened System
  import opened Machine
  import Switching

  /** The kernel an event leaves before it yields, whether it yields, and the stack pointer saved. */
  function Parts(s: Sys, e: Event): (r: (Kernel, bool, nat))
    requires Sized(s) && Tables(s.k) && Enabled(s, e)
  {
    match e
    case Tick(esp) => (s.k, true, esp)
    case CallLock(m, esp) => (LockBody(s, m).0.k, LockBody(s, m).1, esp)
    case CallUnlock(m) => (UnlockBody(s, m).k, false, 0)
    case CallWait(j, esp) => (WaitBody(s, j).0.k, WaitBody(s, j).1, esp)
    case CallSignal(j) => (SignalBody(s, j).k, false, 0)
    case InitMutex(_) => (s.k, false, 0)
    case InitSem(_, _) => (s.k, false, 0)
    case NewThread(esp) => (CreateThread(s.k, esp).0, false, 0)
    case ThreadExits(esp) => (ExitBody(s).0.k, ExitBody(s).1, esp)
    case NewProcess(esp) => (CreateProcess(s.k, esp).0, false, 0)
    case KillProcess(pid, esp) => (KillBody(s, pid).0.k, KillBody(s, pid).1, esp)
    case ProcessExits(esp) => (ProcessExitBody(s).0.k, ProcessExitBody(s).1, esp)
  }

  lemma SetStateContexts(k: Kernel, t: nat, st: TState)
    requires Tables(k) && t < NT(k) && st != Unused
    ensures Switching.SameContexts(k, SetState(k, t, st))
  {
    SetStateTables(k, t, st);
  }

  lemma BuryContexts(k: Kernel, p: nat)
    requires Tables(k) && p < MAX_PROCESSES
    ensures Switching.SameContexts(k, Bury(k, p))
  {
    BuryTables(k, p);
  }

  lemma NothingChanged(k: Kernel)
    requires Tables(k)
    ensures Switching.SameContexts(k, k)
  {
  }

  lemma WakeContexts(s: Sys, d: Call, woken: Ptr)
    requires Inv(s) && (woken.To? ==> Waits(s, woken.slot, d))
    ensures Tables(s.k) && Switching.SameContexts(s.k, Wake(s.k, woken))
  {
    hide Tables;
    hide Switching.SameContexts;
    hide OwnerInv;
    hide Waits;
    NothingChanged(s.k);
    if woken.To? {
      assert Blocked(s.k, woken.slot);
      WakeKernel(s, d, woken);
      SetStateContexts(s.k, woken.slot, TReady);
    }
  }

  lemma EventKeepsContexts(s: Sys, e: Event)
    requires Inv(s) && Enabled(s, e) && !e.NewThread? && !e.NewProcess?
    ensures Sized(s) && Tables(s.k) && Switching.SameContexts(s.k, Parts(s, e).0)
  {
    hide Tables;
    hide Switching.SameContexts;
    hide WaitInv;
    hide OwnerInv;
    hide Waits;
    InvTables(s);
    NothingChanged(s.k);
    CurrentInRange(s.k);
    match e
    case Tick(esp) =>
    case CallLock(m, esp) =>
      if LockBody(s, m).1 { SetStateContexts(s.k, s.k.thread.slot, TBlocked); }
    case CallUnlock(m) => UnlockWoken(s, m);
    case CallWait(j, esp) =>
      if WaitBody(s, j).1 { SetStateContexts(s.k, s.k.thread.slot, TBlocked); }
    case CallSignal(j) => SignalWoken(s, j);
    case InitMutex(m) =>
    case InitSem(j, value) =>
    case ThreadExits(esp) =>
      if s.k.thread.To? { SetStateContexts(s.k, s.k.thread.slot, Terminated); }
    case KillProcess(pid, esp) =>
      ProcFindSlot(s.k, pid);
      var p := ProcFind(s.k.procs, pid, 0);
      if p.To? { BuryContexts(s.k, p.slot); }
    case ProcessExits(esp) =>
      if s.k.proc.To? { BuryContexts(s.k, s.k.proc.slot); }
  }

  lemma UnlockWoken(s: Sys, m: nat)
    requires Inv(s) && m < |s.mutexes|
    ensures Tables(s.k) && Switching.SameContexts(s.k, UnlockBody(s, m).k)
  {
    hide Tables;
    hide Switching.SameContexts;
    hide WaitInv;
    hide OwnerInv;
    InvTables(s);
    UnlockOk(s.mutexes[m], s.k.thread);
    WakeContexts(s, InLock(m), Unlock(s.mutexes[m], s.k.thread).1);
  }

  lemma SignalWoken(s: Sys, j: nat)
    requires Inv(s) && j < |s.sems|
    ensures Tables(s.k) && Switching.SameContexts(s.k, SignalBody(s, j).k)
  {
    hide Tables;
    hide Switching.SameContexts;
    hide WaitInv;
    hide OwnerInv;
    InvTables(s);
    SignalOk(s.sems[j]);
    WakeContexts(s, InWait(j), Signal(s.sems[j]).1);
  }

  lemma PartsAreStep(s: Sys, e: Event)
    requires Inv(s) && Enabled(s, e)
    ensures Sized(s) && Tables(s.k) && Tables(Parts(s, e).0)
    ensures Step(s, e).k == var (k0, switches, esp) := Parts(s, e); ThenIrq((k0, switches), esp)
  {
    hide Inv;
    hide Tables;
    hide Irq;
    InvTables(s);
    StepInv(s, e);
    InvTables(Step(s, e));
    match e
    case NewThread(esp) => CreateThreadTables(s.k, esp);
    case NewProcess(esp) => CreateProcessTables(s.k, esp);
    case _ =>
  }

  /** What the machine adds to an event: how far the running code has computed when it happens, what
      the C code of scheduler_irq leaves, and what a new context is to run. */
  datatype Detail = Detail(cpu: Cpu, mem: Mem, b: Body, entry: nat, arg: nat, exit: nat)

  function MovesOf(s: Sys, e: Event, d: Detail): seq<Switching.Move>
    requires Sized(s) && Tables(s.k) && Enabled(s, e)
  {
    var compute := [Switching.Compute(d.cpu, d.mem)];
    match e
    case NewThread(_) => compute + [Switching.SpawnThread(d.entry, d.arg, d.exit)]
    case NewProcess(_) => compute + [Switching.SpawnProcess(d.entry)]
    case _ =>
      var (k0, switches, esp) := Parts(s, e);
      compute + [Switching.Effect(k0)] + if switches then [Switching.Interrupt(d.b)] else []
  }

  /** The event's stack pointer is the machine's: where the interrupt frame ends, or where the initial
      frame of the new context ends. */
  ghost predicate Fits(w: Switching.World, s: Sys, e: Event, d: Detail)
    requires Sized(s) && Tables(s.k) && Enabled(s, e) && Tables(w.k)
  {
    && Switching.Allowed(w, Switching.Compute(d.cpu, d.mem))
    && match e
       case NewThread(esp) =>
         d.entry != 0 && (NT(s.k) < MAX_THREADS ==> esp + 52 == Switching.Top(w.l, Switching.ThreadCtx(NT(s.k))))
       case NewProcess(esp) =>
         NP(s.k) < MAX_PROCESSES ==> esp + FRAME == Switching.Top(w.l, Switching.ProcessCtx(NP(s.k)))
       case _ =>
         Parts(s, e).1 ==>
           && d.cpu.esp == Parts(s, e).2 + FRAME
           && forall a :: a in d.b.scratch ==>
                Switching.Low(w.l, Switching.Current(w.k)) <= a < d.cpu.esp - Switching.ROOM
  }

  /** The machine makes the event's moves, and ends with the kernel the event leaves. */
  ghost predicate Made(w: Switching.World, vs: seq<Switching.Move>, k: Kernel) {
    Switching.Ok(w) && Switching.CanRun(w, vs) && Switching.Run(w, vs).k == k
  }

  lemma OneMove(w: Switching.World, v: Switching.Move)
    requires Switching.Ok(w) && Switching.Allowed(w, v)
    ensures Tables(w.k) && w.m.cpu.esp >= Switching.ROOM && Switching.Ok(Switching.Advance(w, v))
    ensures Made(w, [v], Switching.Advance(w, v).k)
    ensures Switching.CanRun(w, [v]) && Switching.Run(w, [v]) == Switching.Advance(w, v)
  {
    hide Switching.Ok;
    hide Switching.Allowed;
    hide Switching.Advance;
    Switching.OkTables(w);
    Switching.AdvanceOk(w, v);
    assert [v][1..] == [];
    assert Switching.CanRun(Switching.Advance(w, v), []);
    assert Switching.CanRun(w, [v]);
    assert Switching.Run(Switching.Advance(w, v), []) == Switching.Advance(w, v);
    assert Switching.Run(w, [v]) == Switching.Advance(w, v);
  }

  lemma ThenMade(w: Switching.World, vs: seq<Switching.Move>, more: seq<Switching.Move>, k: Kernel)
    requires Switching.Ok(w) && Switching.CanRun(w, vs) && Made(Switching.Run(w, vs), more, k)
    ensures Made(w, vs + more, k)
  {
    hide Switching.Ok;
    hide Switching.CanRun;
    hide Switching.Run;
    Switching.RunOn(w, vs, more);
  }

  lemma SpawnMade(s: Sys, esp: nat, w: Switching.World, d: Detail)
    requires Inv(s) && Enabled(s, NewThread(esp)) && Sized(s) && Tables(s.k)
    requires Switching.Ok(w) && w.k == s.k && Fits(w, s, NewThread(esp), d)
    ensures Switching.Allowed(w, Switching.SpawnThread(d.entry, d.arg, d.exit))
    ensures Switching.Spawn(w, d.entry, d.arg, d.exit).k == Step(s, NewThread(esp)).k
  {
    hide Inv;
    hide Tables;
    hide Switching.Ok;
    hide Switching.ThreadFrame;
    hide CreateThread;
    CreateFull(s.k, esp);
    TableSizes(s.k);
    if NT(s.k) < MAX_THREADS {
      Switching.ThreadFrameStarts(w.m.mem, esp + 52, d.entry, d.arg, d.exit);
    }
  }

  lemma SpawnProcessMade(s: Sys, esp: nat, w: Switching.World, d: Detail)
    requires Inv(s) && Enabled(s, NewProcess(esp)) && Sized(s) && Tables(s.k)
    requires Switching.Ok(w) && w.k == s.k && Fits(w, s, NewProcess(esp), d)
    ensures Switching.Allowed(w, Switching.SpawnProcess(d.entry))
    ensures Switching.SpawnP(w, d.entry).k == Step(s, NewProcess(esp)).k
  {
    hide Inv;
    hide Tables;
    hide Switching.Ok;
    hide Switching.ProcessFrame;
    hide CreateProcess;
    CreateFull(s.k, esp);
    TableSizes(s.k);
    if NP(s.k) < MAX_PROCESSES {
      Switching.ProcessFrameStarts(w.m.mem, esp + FRAME, d.entry);
    }
  }

  lemma CreateFull(k: Kernel, esp: nat)
    requires Tables(k)
    ensures NT(k) == MAX_THREADS ==> CreateThread(k, esp).0 == k
    ensures NP(k) == MAX_PROCESSES ==> CreateProcess(k, esp).0 == k
  {
  }

  /** One event is the moves it makes. */
  lemma EventIsMoves(s: Sys, e: Event, w: Switching.World, d: Detail)
    requires Inv(s) && Enabled(s, e) && Sized(s) && Tables(s.k)
    requires Switching.Ok(w) && w.k == s.k && Fits(w, s, e, d)
    ensures Made(w, MovesOf(s, e, d), Step(s, e).k)
  {
    hide Inv;
    hide Tables;
    hide Irq;
    hide Parts;
    hide Step;
    hide Switching.Ok;
    hide Stub;
    hide Switching.CanRun;
    hide Switching.Run;
    hide Made;
    var v := Switching.Compute(d.cpu, d.mem);
    OneMove(w, v);
    var w1 := Switching.Advance(w, v);
    if e.NewThread? {
      SpawnMade(s, e.esp, w1, d);
      OneMove(w1, Switching.SpawnThread(d.entry, d.arg, d.exit));
      ThenMade(w, [v], [Switching.SpawnThread(d.entry, d.arg, d.exit)], Step(s, e).k);
    } else if e.NewProcess? {
      SpawnProcessMade(s, e.esp, w1, d);
      OneMove(w1, Switching.SpawnProcess(d.entry));
      ThenMade(w, [v], [Switching.SpawnProcess(d.entry)], Step(s, e).k);
    } else {
      EventKeepsContexts(s, e);
      PartsAreStep(s, e);
      var (k0, switches, esp) := Parts(s, e);
      var u := Switching.Effect(k0);
      OneMove(w1, u);
      var w2 := Switching.Advance(w1, u);
      if switches {
        OneMove(w2, Switching.Interrupt(d.b));
        Switching.StubKernel(w2.m, k0, d.b);
        ThenMade(w1, [u], [Switching.Interrupt(d.b)], Step(s, e).k);
        ThenMade(w, [v], [u] + [Switching.Interrupt(d.b)], Step(s, e).k);
        assert [v] + ([u] + [Switching.Interrupt(d.b)]) == MovesOf(s, e, d);
      } else {
        ThenMade(w, [v], [u], Step(s, e).k);
        assert [v] + [u] == MovesOf(s, e, d);
      }
    }
  }

  // ---- Whole runs ----------------------------------------------------------------------

  /** The run of System with these details, on the machine. */
  ghost predicate RunFits(s: Sys, es: seq<Event>, w: Switching.World, ds: seq<Detail>)
    requires Inv(s) && CanRun(s, es) && |ds| == |es| && Switching.Ok(w) && w.k == s.k
    decreases |es|
  {
    es == [] || (
      InvTables(s);
      Fits(w, s, es[0], ds[0]) && (
        EventIsMoves(s, es[0], w, ds[0]);
        StepInv(s, es[0]);
        RunFits(Step(s, es[0]), es[1..], Switching.Run(w, MovesOf(s, es[0], ds[0])), ds[1..])))
  }

  ghost function AllMoves(s: Sys, es: seq<Event>, ds: seq<Detail>): seq<Switching.Move>
    requires Inv(s) && CanRun(s, es) && |ds| == |es|
    decreases |es|
  {
    if es == [] then []
    else
      InvTables(s);
      StepInv(s, es[0]);
      MovesOf(s, es[0], ds[0]) + AllMoves(Step(s, es[0]), es[1..], ds[1..])
  }

  /** Every run of the whole system is, on the machine, a run of Switching that leaves the same
      kernel. */
  lemma {:induction false} SystemRunMade(s: Sys, es: seq<Event>, w: Switching.World, ds: seq<Detail>)
    requires Inv(s) && CanRun(s, es) && |ds| == |es| && Switching.Ok(w) && w.k == s.k
    requires RunFits(s, es, w, ds)
    ensures Made(w, AllMoves(s, es, ds), Run(s, es).k)
    decreases |es|
  {
    hide Inv;
    hide Tables;
    hide Step;
    hide MovesOf;
    hide Fits;
    hide Switching.Ok;
    InvTables(s);
    if es != [] {
      EventIsMoves(s, es[0], w, ds[0]);
      StepInv(s, es[0]);
      var first := MovesOf(s, es[0], ds[0]);
      SystemRunMade(Step(s, es[0]), es[1..], Switching.Run(w, first), ds[1..]);
      ThenMade(w, first, AllMoves(Step(s, es[0]), es[1..], ds[1..]), Run(s, es).k);
    }
  }

  /** So every run of the whole system, from the moment kernel_main creates the shell, is a run of the
      machine from boot, to which EveryRunTransparent applies. */
  lemma SystemFromBoot(l: Switching.Layout, m: Mach, shell: nat, s0: Sys, esp: nat, es: seq<Event>, ds: seq<Detail>)
    requires Switching.Placed(l) && Switching.HasRoom(l, Switching.BootCtx, m.cpu)
    requires Initial(s0, esp) && esp + FRAME == Switching.Top(l, Switching.ProcessCtx(0)) && |ds| == |es|
    ensures Inv(s0)
    ensures Switching.Ok(Switching.BootWorld(l, m))
    ensures var w1 := Switching.SpawnP(Switching.BootWorld(l, m), shell);
      && Switching.Ok(w1) && w1.k == s0.k
      && (CanRun(s0, es) && RunFits(s0, es, w1, ds) ==>
        Made(Switching.BootWorld(l, m), [Switching.SpawnProcess(shell)] + AllMoves(s0, es, ds), Run(s0, es).k))
  {
    hide Inv;
    hide Tables;
    hide Switching.ProcessFrame;
    hide CreateProcess;
    hide EmptyKernel;
    hide RunFits;
    hide Made;
    InitialInv(s0, esp);
    Switching.BootOk(l, m);
    var w0 := Switching.BootWorld(l, m);
    EmptySlots();
    Switching.ProcessFrameStarts(m.mem, esp + FRAME, shell);
    OneMove(w0, Switching.SpawnProcess(shell));
    var w1 := Switching.SpawnP(w0, shell);
    if CanRun(s0, es) && RunFits(s0, es, w1, ds) {
      SystemRunMade(s0, es, w1, ds);
      ThenMade(w0, [Switching.SpawnProcess(shell)], AllMoves(s0, es, ds), Run(s0, es).k);
    }
  }

  lemma EmptySlots()
    ensures NP(EmptyKernel()) == 0 && Tables(EmptyKernel())
  {
  }
}
