/** Every context of the kernel on one memory: whatever runs in between, a context is resumed
    exactly as it was last suspended, and for the first time at its entry. */
module Switching {
  import opened Sched
  import opened Machine

  // ---- Contexts and their stacks -------------------------------------------------------

  datatype Ctx = BootCtx | ThreadCtx(t: nat) | ProcessCtx(p: nat)

  const STACK_SIZE := 4096

  /** Where the linker put thread_stacks, process_stacks and the boot stack. */
  datatype Layout = Layout(threads: nat, procs: nat, bootLow: nat, bootTop: nat)

  predicate Placed(l: Layout) {
    && (l.threads + MAX_THREADS * STACK_SIZE <= l.procs || l.procs + MAX_PROCESSES * STACK_SIZE <= l.threads)
    && l.bootLow <= l.bootTop
    && (l.bootTop <= l.threads || l.threads + MAX_THREADS * STACK_SIZE <= l.bootLow)
    && (l.bootTop <= l.procs || l.procs + MAX_PROCESSES * STACK_SIZE <= l.bootLow)
  }

  function Low(l: Layout, c: Ctx): nat {
    match c
    case BootCtx => l.bootLow
    case ThreadCtx(t) => l.threads + STACK_SIZE * t
    case ProcessCtx(p) => l.procs + STACK_SIZE * p
  }

  function Top(l: Layout, c: Ctx): nat {
    if c == BootCtx then l.bootTop else Low(l, c) + STACK_SIZE
  }

  predicate OnStack(l: Layout, c: Ctx, a: nat) {
    Low(l, c) <= a < Top(l, c)
  }

  /** The context has been created and can be switched to. */
  predicate Created(k: Kernel, c: Ctx) {
    match c
    case BootCtx => false
    case ThreadCtx(t) => t < NT(k)
    case ProcessCtx(p) => p < NP(k)
  }

  predicate Exists(c: Ctx) {
    match c
    case BootCtx => true
    case ThreadCtx(t) => t < MAX_THREADS
    case ProcessCtx(p) => p < MAX_PROCESSES
  }

  lemma StacksDisjoint(l: Layout, c: Ctx, d: Ctx, a: nat)
    requires Placed(l) && Exists(c) && Exists(d) && c != d && OnStack(l, c, a)
    ensures !OnStack(l, d, a)
  {
  }

  function EspOf(k: Kernel, c: Ctx): nat
    requires Tables(k) && Created(k, c)
  {
    match c
    case ThreadCtx(t) => k.threads[t].esp
    case ProcessCtx(p) => k.procs[p].esp
  }

  function Current(k: Kernel): Ctx
    requires Tables(k)
  {
    match k.kind
    case Boot => BootCtx
    case Thread => ThreadCtx(k.curThread.slot)
    case Process => ProcessCtx(k.curProc.slot)
  }

  lemma CreatedExists(k: Kernel)
    requires Tables(k)
    ensures forall c :: Created(k, c) ==> Exists(c)
    ensures Exists(Current(k))
    ensures Current(k) != BootCtx ==> Created(k, Current(k))
  {
  }

  lemma SaveStacks(k: Kernel, esp: nat)
    requires Tables(k)
    ensures var k1 := Save(k, esp);
      && Tables(k1) && NT(k1) == NT(k) && NP(k1) == NP(k) && Current(k1) == Current(k)
      && (forall c :: Created(k, c) ==> EspOf(k1, c) == if c == Current(k) then esp else EspOf(k, c))
  {
    SaveTables(k, esp);
  }

  lemma DispatchStacks(k: Kernel, c: Choice, esp: nat)
    requires Tables(k)
    requires c.RunThread? ==> c.t < NT(k) && k.threads[c.t].state == TReady
    requires c.RunProcess? ==> c.p < NP(k)
    ensures var (k1, out) := Dispatch(k, c, esp);
      && Tables(k1) && NT(k1) == NT(k) && NP(k1) == NP(k)
      && (forall d :: Created(k, d) ==> EspOf(k1, d) == EspOf(k, d))
      && Current(k1) == (match c case RunThread(t) => ThreadCtx(t) case RunProcess(p) => ProcessCtx(p) case Continue => Current(k))
      && out == (if c == Continue then esp else EspOf(k1, Current(k1)))
  {
    DispatchTables(k, c, esp);
  }

  /** scheduler_irq records the interrupted stack pointer with the context it belongs to, leaves
      every other one alone, and returns the recorded stack pointer of the context it picked. */
  lemma IrqStacks(k: Kernel, esp: nat)
    requires Tables(k)
    ensures var (k1, out) := Irq(k, esp);
      && Tables(k1) && NT(k1) == NT(k) && NP(k1) == NP(k)
      && (forall c :: Created(k, c) ==> EspOf(k1, c) == if c == Current(k) then esp else EspOf(k, c))
      && (Current(k1) == BootCtx ==> Current(k) == BootCtx)
      && out == (if Current(k1) == BootCtx then esp else EspOf(k1, Current(k1)))
  {
    hide Choose;
    hide Save;
    hide Dispatch;
    hide ThreadTable;
    hide ProcTable;
    SaveTables(k, esp);
    SaveStacks(k, esp);
    DispatchStacks(Save(k, esp), Choose(Save(k, esp)), esp);
    CreatedExists(k);
  }

  // ---- The machine with all its contexts -----------------------------------------------

  /** `saved` remembers, for every context not running, the CPU it was suspended with (or is to
      start with) and the memory of that moment. It is history: no step reads it. */
  datatype Saved = Saved(cpu: Cpu, mem: Mem)
  datatype World = World(l: Layout, m: Mach, k: Kernel, saved: map<Ctx, Saved>)

  /** Room an interrupt needs: the frame, and the argument and return address of the call. */
  const ROOM := FRAME + 8

  predicate HasRoom(l: Layout, c: Ctx, cpu: Cpu) {
    Low(l, c) + ROOM <= cpu.esp <= Top(l, c)
  }

  /** What lies on the stack of c from its stack pointer up is what was there when it was saved. */
  ghost predicate SameStack(l: Layout, c: Ctx, esp: nat, mem: Mem, mem1: Mem) {
    forall a: nat :: esp <= a < Top(l, c) ==> Get(mem, a) == Get(mem1, a)
  }

  /** Context c can be resumed to exactly what was saved. */
  ghost predicate Suspended(w: World, c: Ctx)
    requires Tables(w.k) && Created(w.k, c)
  {
    && c in w.saved && var s := w.saved[c];
    && HasRoom(w.l, c, s.cpu)
    && FrameAt(w.m.mem, EspOf(w.k, c), s.cpu)
    && SameStack(w.l, c, s.cpu.esp, w.m.mem, s.mem)
  }

  ghost predicate Ok(w: World) {
    && Placed(w.l) && Tables(w.k) && HasRoom(w.l, Current(w.k), w.m.cpu)
    && forall c :: Created(w.k, c) && c != Current(w.k) ==> Suspended(w, c)
  }

  // ---- Steps ---------------------------------------------------------------------------

  datatype Move =
    | Compute(cpu: Cpu, mem: Mem)
    | Interrupt(b: Body)
    | Effect(k: Kernel)
    | SpawnThread(fn: nat, arg: nat, exit: nat)
    | SpawnProcess(entry: nat)

  /** The kernel's data changed, but no context, stack pointer or current pointer. */
  ghost predicate SameContexts(k: Kernel, k1: Kernel)
    requires Tables(k)
  {
    && Tables(k1) && NT(k1) == NT(k) && NP(k1) == NP(k) && Current(k1) == Current(k)
    && forall c :: Created(k, c) ==> EspOf(k1, c) == EspOf(k, c)
  }

  /** The running code stays on its own stack, with room for an interrupt, and writes no other
      stack; the C code of scheduler_irq writes the interrupted stack below its return address. */
  ghost predicate Allowed(w: World, v: Move)
    requires Tables(w.k)
  {
    var c := Current(w.k);
    match v
    case Compute(cpu, mem) =>
      && HasRoom(w.l, c, cpu)
      && forall d, a: nat :: Created(w.k, d) && d != c && OnStack(w.l, d, a) ==> Get(mem, a) == Get(w.m.mem, a)
    case Interrupt(b) => forall a :: a in b.scratch ==> Low(w.l, c) <= a < w.m.cpu.esp - ROOM
    case Effect(k) => SameContexts(w.k, k)
    case SpawnThread(fn, _, _) => fn != 0
    case SpawnProcess(_) => true
  }

  /** Writing through a falling pointer: *--sp = v. */
  function Down(m: Mach, vs: seq<nat>): Mach
    requires m.cpu.esp >= 4 * |vs|
    decreases |vs|
  {
    if vs == [] then m else Down(Push(m, vs[0]), vs[1..])
  }

  const NO_REGS := Regs(0, 0, 0, 0, 0, 0, 0)

  /** The words thread_create writes from the top of the new stack down, and where they end. */
  function ThreadFrame(mem: Mem, top: nat, fn: nat, arg: nat, exit: nat): Mach
    requires top >= 52
  {
    Down(Mach(Cpu(NO_REGS, top, 0, 0, 0), mem), [arg, exit, START_FLAGS, CODE_SEGMENT, fn, 0, 0, 0, 0, 0, 0, 0, 0])
  }

  function ProcessFrame(mem: Mem, top: nat, entry: nat): Mach
    requires top >= FRAME
  {
    Down(Mach(Cpu(NO_REGS, top, 0, 0, 0), mem), [START_FLAGS, CODE_SEGMENT, entry, 0, 0, 0, 0, 0, 0, 0, 0])
  }

  function SwitchBy(w: World, b: Body): World
    requires Tables(w.k) && w.m.cpu.esp >= ROOM
  {
    var (m1, k1) := Stub(w.m, w.k, b);
    World(w.l, m1, k1, w.saved[Current(w.k) := Saved(w.m.cpu, w.m.mem)])
  }

  function Spawn(w: World, fn: nat, arg: nat, exit: nat): World
    requires Tables(w.k)
  {
    var c := ThreadCtx(NT(w.k));
    if NT(w.k) == MAX_THREADS then w
    else
      var top := Top(w.l, c);
      var m1 := ThreadFrame(w.m.mem, top, fn, arg, exit);
      World(w.l, w.m.(mem := m1.mem), CreateThread(w.k, m1.cpu.esp).0,
            w.saved[c := Saved(Cpu(NO_REGS, top - 8, fn, CODE_SEGMENT, START_FLAGS), m1.mem)])
  }

  function SpawnP(w: World, entry: nat): World
    requires Tables(w.k)
  {
    var c := ProcessCtx(NP(w.k));
    if NP(w.k) == MAX_PROCESSES then w
    else
      var top := Top(w.l, c);
      var m1 := ProcessFrame(w.m.mem, top, entry);
      World(w.l, w.m.(mem := m1.mem), CreateProcess(w.k, m1.cpu.esp).0,
            w.saved[c := Saved(Cpu(NO_REGS, top, entry, CODE_SEGMENT, START_FLAGS), m1.mem)])
  }

  function Advance(w: World, v: Move): World
    requires Tables(w.k) && w.m.cpu.esp >= ROOM
  {
    match v
    case Compute(cpu, mem) => w.(m := Mach(cpu, mem))
    case Interrupt(b) => SwitchBy(w, b)
    case Effect(k) => w.(k := k)
    case SpawnThread(fn, arg, exit) => Spawn(w, fn, arg, exit)
    case SpawnProcess(entry) => SpawnP(w, entry)
  }

  // ---- New frames ----------------------------------------------------------------------

  /** Bit 9 of EFLAGS: a tick can take the CPU from this context. */
  predicate InterruptsOn(c: Cpu) {
    c.eflags / 512 % 2 == 1
  }

  lemma {:induction false} DownAt(m: Mach, vs: seq<nat>)
    requires m.cpu.esp >= 4 * |vs|
    ensures var m1 := Down(m, vs);
      && m1.cpu == m.cpu.(esp := m.cpu.esp - 4 * |vs|)
      && (forall i: nat :: i < |vs| ==> Get(m1.mem, m.cpu.esp - 4 - 4 * i) == vs[i])
      && (forall a: nat :: !(m1.cpu.esp <= a < m.cpu.esp) ==> Get(m1.mem, a) == Get(m.mem, a))
    decreases |vs|
  {
    if vs != [] {
      var m1 := Down(m, vs);
      DownAt(Push(m, vs[0]), vs[1..]);
      forall i: nat | i < |vs|
        ensures Get(m1.mem, m.cpu.esp - 4 - 4 * i) == vs[i]
      {
        if i > 0 {
          assert vs[i] == vs[1..][i - 1];
        }
      }
    }
  }

  /** thread_create: the first resume starts fn with cleared registers and interrupts on; its stack
      then holds thread_return as the return address and, above it, the argument. */
  lemma ThreadFrameStarts(mem: Mem, top: nat, fn: nat, arg: nat, exit: nat)
    requires top >= 52
    ensures var m1 := ThreadFrame(mem, top, fn, arg, exit);
      && m1.cpu.esp == top - 52
      && FrameAt(m1.mem, top - 52, Cpu(NO_REGS, top - 8, fn, CODE_SEGMENT, START_FLAGS))
      && InterruptsOn(Cpu(NO_REGS, top - 8, fn, CODE_SEGMENT, START_FLAGS))
      && Get(m1.mem, top - 8) == exit && Get(m1.mem, top - 4) == arg
      && (forall a: nat :: !(top - 52 <= a < top) ==> Get(m1.mem, a) == Get(mem, a))
  {
    hide Get;
    var vs := [arg, exit, START_FLAGS, CODE_SEGMENT, fn, 0, 0, 0, 0, 0, 0, 0, 0];
    var m := Mach(Cpu(NO_REGS, top, 0, 0, 0), mem);
    DownAt(m, vs);
    ReadDown(m, vs, Down(m, vs).mem);
  }

  /** proc_create: the first resume starts entry at the top of an empty stack. */
  lemma ProcessFrameStarts(mem: Mem, top: nat, entry: nat)
    requires top >= FRAME
    ensures var m1 := ProcessFrame(mem, top, entry);
      && m1.cpu.esp == top - FRAME
      && FrameAt(m1.mem, top - FRAME, Cpu(NO_REGS, top, entry, CODE_SEGMENT, START_FLAGS))
      && InterruptsOn(Cpu(NO_REGS, top, entry, CODE_SEGMENT, START_FLAGS))
      && (forall a: nat :: !(top - FRAME <= a < top) ==> Get(m1.mem, a) == Get(mem, a))
  {
    hide Get;
    var vs := [START_FLAGS, CODE_SEGMENT, entry, 0, 0, 0, 0, 0, 0, 0, 0];
    var m := Mach(Cpu(NO_REGS, top, 0, 0, 0), mem);
    DownAt(m, vs);
    ReadDown(m, vs, Down(m, vs).mem);
  }

  /** The eleven lowest words of a frame, read upwards. */
  lemma ReadDown(m: Mach, vs: seq<nat>, mem: Mem)
    requires |vs| >= 11 && m.cpu.esp >= 4 * |vs|
    requires forall i: nat :: i < |vs| ==> Get(mem, m.cpu.esp - 4 - 4 * i) == vs[i]
    ensures var e := m.cpu.esp - 4 * |vs|; var n := |vs| - 1;
      && Get(mem, e) == vs[n] && Get(mem, e + 4) == vs[n - 1] && Get(mem, e + 8) == vs[n - 2]
      && Get(mem, e + 16) == vs[n - 4] && Get(mem, e + 20) == vs[n - 5] && Get(mem, e + 24) == vs[n - 6]
      && Get(mem, e + 28) == vs[n - 7] && Get(mem, e + 32) == vs[n - 8] && Get(mem, e + 36) == vs[n - 9]
      && Get(mem, e + 40) == vs[n - 10]
      && (n >= 12 ==> Get(mem, e + 44) == vs[n - 11] && Get(mem, e + 48) == vs[n - 12])
  {
    var e := m.cpu.esp - 4 * |vs|;
    var n: nat := |vs| - 1;
    forall l: nat | l <= n
      ensures Get(mem, e + 4 * l) == vs[n - l]
    {
      assert m.cpu.esp - 4 - 4 * (n - l) == e + 4 * l;
    }
    assert Get(mem, e + 4 * 0) == vs[n - 0] && Get(mem, e + 4 * 1) == vs[n - 1] && Get(mem, e + 4 * 2) == vs[n - 2];
    assert Get(mem, e + 4 * 4) == vs[n - 4] && Get(mem, e + 4 * 5) == vs[n - 5] && Get(mem, e + 4 * 6) == vs[n - 6];
    assert Get(mem, e + 4 * 7) == vs[n - 7] && Get(mem, e + 4 * 8) == vs[n - 8] && Get(mem, e + 4 * 9) == vs[n - 9];
    assert Get(mem, e + 4 * 10) == vs[n - 10];
    if n >= 12 {
      assert Get(mem, e + 4 * 11) == vs[n - 11] && Get(mem, e + 4 * 12) == vs[n - 12];
    }
  }

  // ---- The switch ----------------------------------------------------------------------

  lemma FrameKept(mem: Mem, mem1: Mem, e: nat, c: Cpu)
    requires FrameAt(mem, e, c) && forall a: nat :: e <= a < e + FRAME ==> Get(mem1, a) == Get(mem, a)
    ensures FrameAt(mem1, e, c)
  {
    hide Get;
  }

  lemma TakenStack(m: Mach)
    ensures TakeStack(m).mem == m.mem && TakeStack(m).cpu.esp == m.cpu.r.eax
    ensures Iretd(Popad(TakeStack(m))).mem == m.mem
  {
  }

  /** One run of irq0_stub: where the memory may differ, which frame is restored. */
  lemma StubEffect(m: Mach, k: Kernel, b: Body, c: Cpu)
    requires Tables(k) && m.cpu.esp >= ROOM
    requires forall a :: a in b.scratch ==> a < m.cpu.esp - ROOM
    ensures var (m1, k1) := Stub(m, k, b); var e := m.cpu.esp - FRAME;
      && k1 == Irq(k, e).0
      && FrameAt(m1.mem, e, m.cpu)
      && (forall a: nat :: !(a in b.scratch) && !(m.cpu.esp - ROOM <= a < m.cpu.esp) ==> Get(m1.mem, a) == Get(m.mem, a))
      && (FrameAt(m1.mem, Irq(k, e).1, c) ==> m1.cpu == c)
  {
    hide Irq;
    hide Get;
    hide Pushad;
    hide Enter;
    hide CallScheduler;
    hide TakeStack;
    hide Popad;
    hide Iretd;
    hide FrameAt;
    EnterFrame(m);
    var m1 := Pushad(Enter(m));
    SaveFrame(m);
    CallSeesFrame(m1, k, b);
    var m2 := CallScheduler(m1, k, b).0;
    FrameKept(m1.mem, m2.mem, m1.cpu.esp, m.cpu);
    TakenStack(m2);
    if FrameAt(m2.mem, m2.cpu.r.eax, c) {
      RestoreFrame(TakeStack(m2), c);
    }
  }

  /** A step of another context leaves d suspended if it leaves d's stack and stack pointer alone. */
  lemma StaysSuspended(w: World, w1: World, d: Ctx)
    requires Placed(w.l) && w1.l == w.l && Tables(w.k) && Tables(w1.k)
    requires Created(w.k, d) && Created(w1.k, d) && Suspended(w, d)
    requires EspOf(w1.k, d) == EspOf(w.k, d) && d in w1.saved && w1.saved[d] == w.saved[d]
    requires forall a: nat :: OnStack(w.l, d, a) ==> Get(w1.m.mem, a) == Get(w.m.mem, a)
    ensures Suspended(w1, d)
  {
    hide Get;
    hide Tables;
    hide FrameAt;
    var s := w.saved[d];
    assert s.cpu.esp == EspOf(w.k, d) + FRAME by { FrameEsp(w.m.mem, EspOf(w.k, d), s.cpu); }
    FrameKept(w.m.mem, w1.m.mem, EspOf(w.k, d), s.cpu);
  }

  lemma FrameEsp(mem: Mem, e: nat, c: Cpu)
    requires FrameAt(mem, e, c)
    ensures c.esp == e + FRAME
  {
  }

  /** What the stub writes lies on the interrupted stack. */
  lemma SwitchWrites(w: World, b: Body, d: Ctx, a: nat)
    requires Ok(w) && Allowed(w, Interrupt(b))
    requires Exists(d) && d != Current(w.k) && OnStack(w.l, d, a)
    ensures w.m.cpu.esp >= ROOM && Get(SwitchBy(w, b).m.mem, a) == Get(w.m.mem, a)
  {
    hide Tables;
    hide Get;
    hide Stub;
    var c := Current(w.k);
    CreatedExists(w.k);
    assert forall x :: x in b.scratch ==> x < w.m.cpu.esp - ROOM;
    StubEffect(w.m, w.k, b, w.m.cpu);
    if OnStack(w.l, c, a) {
      StacksDisjoint(w.l, c, d, a);
    }
  }

  /** After an interrupt the interrupted context is suspended as it was. */
  lemma SwitchSuspends(w: World, b: Body)
    requires Ok(w) && Allowed(w, Interrupt(b)) && Created(w.k, Current(w.k))
    ensures w.m.cpu.esp >= ROOM && var w1 := SwitchBy(w, b);
      Tables(w1.k) && Created(w1.k, Current(w.k)) && Suspended(w1, Current(w.k))
  {
    hide FrameAt;
    hide Irq;
    hide Tables;
    hide Get;
    hide Stub;
    assert forall x :: x in b.scratch ==> x < w.m.cpu.esp - ROOM;
    StubEffect(w.m, w.k, b, w.m.cpu);
    IrqStacks(w.k, w.m.cpu.esp - FRAME);
  }

  /** The context the CPU goes on with has exactly the registers, stack pointer, EIP, CS and EFLAGS
      it was suspended with (or was created with), and the same words on its stack. */
  lemma SwitchResumes(w: World, b: Body)
    requires Ok(w) && Allowed(w, Interrupt(b))
    ensures w.m.cpu.esp >= ROOM && var w1 := SwitchBy(w, b);
      && Tables(w1.k) && var c := Current(w1.k);
      && var s := if c == Current(w.k) then Saved(w.m.cpu, w.m.mem)
        else if c in w.saved then w.saved[c] else Saved(w.m.cpu, w.m.mem);
      && (c != Current(w.k) ==> c in w.saved)
      && w1.m.cpu == s.cpu && SameStack(w.l, c, s.cpu.esp, w1.m.mem, s.mem) && HasRoom(w.l, c, s.cpu)
  {
    hide Tables;
    hide Get;
    hide Stub;
    hide Irq;
    hide FrameAt;
    assert forall x :: x in b.scratch ==> x < w.m.cpu.esp - ROOM;
    StubEffect(w.m, w.k, b, w.m.cpu);
    IrqStacks(w.k, w.m.cpu.esp - FRAME);
    CreatedExists(w.k);
    var w1 := SwitchBy(w, b);
    CreatedExists(w1.k);
    var c := Current(w1.k);
    if c != Current(w.k) {
      assert Created(w.k, c) && Suspended(w, c);
      var s := w.saved[c];
      FrameEsp(w.m.mem, EspOf(w.k, c), s.cpu);
      forall a: nat | OnStack(w.l, c, a)
        ensures Get(w1.m.mem, a) == Get(w.m.mem, a)
      {
        SwitchWrites(w, b, c, a);
      }
      FrameKept(w.m.mem, w1.m.mem, EspOf(w.k, c), s.cpu);
      StubEffect(w.m, w.k, b, s.cpu);
    }
  }

  lemma SwitchOk(w: World, b: Body)
    requires Ok(w) && Allowed(w, Interrupt(b))
    ensures w.m.cpu.esp >= ROOM && Ok(SwitchBy(w, b))
  {
    hide Tables;
    hide Get;
    hide Stub;
    hide Irq;
    hide FrameAt;
    hide Suspended;
    SwitchResumes(w, b);
    IrqStacks(w.k, w.m.cpu.esp - FRAME);
    CreatedExists(w.k);
    StubEffect(w.m, w.k, b, w.m.cpu);
    var w1 := SwitchBy(w, b);
    forall d | Created(w1.k, d) && d != Current(w1.k)
      ensures Suspended(w1, d)
    {
      if d == Current(w.k) {
        SwitchSuspends(w, b);
      } else {
        forall a: nat | OnStack(w.l, d, a)
          ensures Get(w1.m.mem, a) == Get(w.m.mem, a)
        {
          SwitchWrites(w, b, d, a);
        }
        assert d in w.saved by { SuspendedSaved(w, d); }
        StaysSuspended(w, w1, d);
      }
    }
  }

  lemma SuspendedSaved(w: World, d: Ctx)
    requires Tables(w.k) && Created(w.k, d) && Suspended(w, d)
    ensures d in w.saved
  {
  }

  /** Creating a context is invisible to the others. */
  lemma NewThreadStack(k: Kernel, esp: nat)
    requires Tables(k)
    ensures var k1 := CreateThread(k, esp).0;
      && Tables(k1) && Current(k1) == Current(k)
      && (forall c :: Created(k, c) ==> Created(k1, c) && EspOf(k1, c) == EspOf(k, c))
      && (forall c :: Created(k1, c) && !Created(k, c) ==>
        NT(k) < MAX_THREADS && c == ThreadCtx(NT(k)) && EspOf(k1, c) == esp)
  {
    CreateThreadTables(k, esp);
  }

  lemma NewProcessStack(k: Kernel, esp: nat)
    requires Tables(k)
    ensures var k1 := CreateProcess(k, esp).0;
      && Tables(k1) && Current(k1) == Current(k)
      && (forall c :: Created(k, c) ==> Created(k1, c) && EspOf(k1, c) == EspOf(k, c))
      && (forall c :: Created(k1, c) && !Created(k, c) ==>
        NP(k) < MAX_PROCESSES && c == ProcessCtx(NP(k)) && EspOf(k1, c) == esp)
  {
    CreateProcessTables(k, esp);
  }

  lemma SpawnOk(w: World, fn: nat, arg: nat, exit: nat)
    requires Ok(w)
    ensures Ok(Spawn(w, fn, arg, exit))
  {
    hide Tables;
    hide Get;
    hide FrameAt;
    hide ThreadFrame;
    hide CreateThread;
    hide CreateProcess;
    TableSizes(w.k);
    if NT(w.k) < MAX_THREADS {
      var c := ThreadCtx(NT(w.k));
      var top := Top(w.l, c);
      ThreadFrameStarts(w.m.mem, top, fn, arg, exit);
      var m1 := ThreadFrame(w.m.mem, top, fn, arg, exit);
      NewThreadStack(w.k, m1.cpu.esp);
      SpawnedOk(w, Spawn(w, fn, arg, exit), c);
    }
  }

  lemma SpawnPOk(w: World, entry: nat)
    requires Ok(w)
    ensures Ok(SpawnP(w, entry))
  {
    hide Tables;
    hide Get;
    hide FrameAt;
    hide ProcessFrame;
    hide CreateThread;
    hide CreateProcess;
    TableSizes(w.k);
    if NP(w.k) < MAX_PROCESSES {
      var c := ProcessCtx(NP(w.k));
      var top := Top(w.l, c);
      ProcessFrameStarts(w.m.mem, top, entry);
      var m1 := ProcessFrame(w.m.mem, top, entry);
      NewProcessStack(w.k, m1.cpu.esp);
      SpawnedOk(w, SpawnP(w, entry), c);
    }
  }

  /** One more context, ready to start, on a stack of its own. */
  lemma SpawnedOk(w: World, w1: World, c: Ctx)
    requires Ok(w) && w1.l == w.l && Tables(w1.k) && Current(w1.k) == Current(w.k) && w1.m.cpu == w.m.cpu
    requires Exists(c) && !Created(w.k, c)
    requires forall d :: Created(w.k, d) ==> Created(w1.k, d) && EspOf(w1.k, d) == EspOf(w.k, d)
    requires forall d :: Created(w1.k, d) && !Created(w.k, d) ==> d == c
    requires forall d :: d in w.saved && d != c ==> d in w1.saved && w1.saved[d] == w.saved[d]
    requires forall a: nat :: !OnStack(w.l, c, a) ==> Get(w1.m.mem, a) == Get(w.m.mem, a)
    requires Created(w1.k, c) ==> Suspended(w1, c)
    ensures Ok(w1)
  {
    hide Tables;
    hide Get;
    hide Suspended;
    CreatedExists(w.k);
    forall d | Created(w1.k, d) && d != Current(w1.k)
      ensures Suspended(w1, d)
    {
      if d != c {
        forall a: nat | OnStack(w.l, d, a)
          ensures Get(w1.m.mem, a) == Get(w.m.mem, a)
        {
          StacksDisjoint(w.l, d, c, a);
        }
        SuspendedSaved(w, d);
        StaysSuspended(w, w1, d);
      }
    }
  }

  lemma OthersStay(w: World, w1: World)
    requires Ok(w) && w1.l == w.l && w1.saved == w.saved && Tables(w1.k) && SameContexts(w.k, w1.k)
    requires HasRoom(w.l, Current(w.k), w1.m.cpu)
    requires forall d, a: nat :: Created(w.k, d) && d != Current(w.k) && OnStack(w.l, d, a) ==> Get(w1.m.mem, a) == Get(w.m.mem, a)
    ensures Ok(w1)
  {
    hide Tables;
    hide Get;
    hide Suspended;
    forall d | Created(w1.k, d) && d != Current(w1.k)
      ensures Suspended(w1, d)
    {
      SuspendedSaved(w, d);
      StaysSuspended(w, w1, d);
    }
  }

  /** Every step keeps every suspended context resumable. */
  lemma AdvanceOk(w: World, v: Move)
    requires Ok(w) && Allowed(w, v)
    ensures w.m.cpu.esp >= ROOM && Ok(Advance(w, v))
  {
    hide Tables;
    hide Get;
    hide SwitchBy;
    hide Spawn;
    hide SpawnP;
    hide Suspended;
    match v
    case Compute(cpu, mem) => OthersStay(w, Advance(w, v));
    case Interrupt(b) => SwitchOk(w, b);
    case Effect(k) => OthersStay(w, Advance(w, v));
    case SpawnThread(fn, arg, exit) => SpawnOk(w, fn, arg, exit);
    case SpawnProcess(entry) => SpawnPOk(w, entry);
  }

  // ---- Whole runs ----------------------------------------------------------------------

  ghost predicate CanRun(w: World, vs: seq<Move>)
    requires Ok(w)
    decreases |vs|
  {
    vs == [] || (Allowed(w, vs[0]) && (AdvanceOk(w, vs[0]); CanRun(Advance(w, vs[0]), vs[1..])))
  }

  ghost function Run(w: World, vs: seq<Move>): (r: World)
    requires Ok(w) && CanRun(w, vs)
    ensures Ok(r)
    decreases |vs|
  {
    if vs == [] then w else AdvanceOk(w, vs[0]); Run(Advance(w, vs[0]), vs[1..])
  }

  /** Context c does not run in any state of the run. */
  ghost predicate SleepsThrough(w: World, vs: seq<Move>, c: Ctx)
    requires Ok(w) && CanRun(w, vs)
    decreases |vs|
  {
    Current(w.k) != c && (vs == [] || (AdvanceOk(w, vs[0]); SleepsThrough(Advance(w, vs[0]), vs[1..], c)))
  }

  lemma SavedKept(w: World, v: Move, c: Ctx)
    requires Ok(w) && Allowed(w, v) && Created(w.k, c) && c != Current(w.k)
    ensures w.m.cpu.esp >= ROOM && var w1 := Advance(w, v);
      && w1.l == w.l && Tables(w1.k) && Created(w1.k, c) && c in w.saved && c in w1.saved && w1.saved[c] == w.saved[c]
  {
    hide Tables;
    hide Get;
    hide Stub;
    hide Irq;
    hide CreateThread;
    hide CreateProcess;
    hide FrameAt;
    SuspendedSaved(w, c);
    match v
    case Compute(cpu, mem) =>
    case Interrupt(b) => SwitchOk(w, b); StubKernel(w.m, w.k, b); IrqStacks(w.k, w.m.cpu.esp - FRAME);
    case Effect(k) =>
    case SpawnThread(fn, arg, exit) => SpawnOk(w, fn, arg, exit); SpawnKernel(w, fn, arg, exit);
    case SpawnProcess(entry) => SpawnPOk(w, entry); SpawnPKernel(w, entry);
  }

  lemma StubKernel(m: Mach, k: Kernel, b: Body)
    requires Tables(k) && m.cpu.esp >= ROOM
    ensures Stub(m, k, b).1 == Irq(k, m.cpu.esp - FRAME).0
  {
    hide Irq;
    hide Get;
    SaveFrame(m);
    CallSeesFrame(Pushad(Enter(m)), k, b);
  }

  lemma SpawnKernel(w: World, fn: nat, arg: nat, exit: nat)
    requires Ok(w)
    ensures forall c :: Created(w.k, c) ==> Created(Spawn(w, fn, arg, exit).k, c)
  {
    hide Get;
    hide ThreadFrame;
    hide Suspended;
  }

  lemma SpawnPKernel(w: World, entry: nat)
    requires Ok(w)
    ensures forall c :: Created(w.k, c) ==> Created(SpawnP(w, entry).k, c)
  {
    hide Get;
    hide ProcessFrame;
    hide Suspended;
  }

  lemma {:induction false} SavedThroughout(w: World, vs: seq<Move>, c: Ctx)
    requires Ok(w) && CanRun(w, vs) && Created(w.k, c) && SleepsThrough(w, vs, c)
    ensures var w1 := Run(w, vs);
      w1.l == w.l && Created(w1.k, c) && c in w.saved && c in w1.saved && w1.saved[c] == w.saved[c]
    decreases |vs|
  {
    hide Ok;
    hide Advance;
    hide Allowed;
    if vs == [] {
      assert c in w.saved by { OkSaved(w, c); }
    } else {
      OkTables(w);
      AdvanceOk(w, vs[0]);
      SavedKept(w, vs[0], c);
      SavedThroughout(Advance(w, vs[0]), vs[1..], c);
    }
  }

  lemma OkTables(w: World)
    requires Ok(w)
    ensures Tables(w.k) && w.m.cpu.esp >= ROOM
  {
  }

  lemma OkSaved(w: World, c: Ctx)
    requires Ok(w) && Created(w.k, c) && c != Current(w.k)
    ensures c in w.saved
  {
  }

  /** Context-switch transparency: a context is interrupted, any run follows in which it does not
      run, and an interrupt resumes it: it goes on with the very CPU it was interrupted with, and
      every word on its stack is the one it left there. */
  lemma SwitchTransparent(w: World, b: Body, w1: World, vs: seq<Move>, b1: Body)
    requires Ok(w) && Allowed(w, Interrupt(b)) && w1 == Advance(w, Interrupt(b)) && Ok(w1)
    requires Created(w.k, Current(w.k))
    requires CanRun(w1, vs) && SleepsThrough(w1, vs, Current(w.k)) && Allowed(Run(w1, vs), Interrupt(b1))
    ensures var w3 := Advance(Run(w1, vs), Interrupt(b1));
      && Tables(w3.k)
      && (Current(w3.k) == Current(w.k) ==>
        w3.m.cpu == w.m.cpu && SameStack(w.l, Current(w.k), w.m.cpu.esp, w3.m.mem, w.m.mem))
  {
    hide Tables;
    hide Get;
    hide Stub;
    hide Irq;
    hide FrameAt;
    hide Suspended;
    hide Run;
    hide CanRun;
    hide SleepsThrough;
    SwitchSuspends(w, b);
    SavedThroughout(w1, vs, Current(w.k));
    SwitchResumes(Run(w1, vs), b1);
    SleepsAtEnd(w1, vs, Current(w.k));
  }

  lemma {:induction false} SleepsAtEnd(w: World, vs: seq<Move>, c: Ctx)
    requires Ok(w) && CanRun(w, vs) && SleepsThrough(w, vs, c)
    ensures Current(Run(w, vs).k) != c
    decreases |vs|
  {
    hide Ok;
    hide Advance;
    hide Allowed;
    if vs != [] {
      OkTables(w);
      AdvanceOk(w, vs[0]);
      SleepsAtEnd(Advance(w, vs[0]), vs[1..], c);
    }
  }

  /** The first time a new thread runs, whatever happened since its creation, it is at its entry
      with cleared registers and interrupts on, and its stack holds thread_return and its argument. */
  lemma ThreadStartsAtEntry(w: World, fn: nat, arg: nat, exit: nat, w1: World, vs: seq<Move>, b: Body)
    requires Ok(w) && fn != 0 && NT(w.k) < MAX_THREADS && w1 == Advance(w, SpawnThread(fn, arg, exit)) && Ok(w1)
    requires CanRun(w1, vs) && SleepsThrough(w1, vs, ThreadCtx(NT(w.k))) && Allowed(Run(w1, vs), Interrupt(b))
    ensures var w3 := Advance(Run(w1, vs), Interrupt(b)); var c := ThreadCtx(NT(w.k)); var top := Top(w.l, c);
      && Tables(w3.k)
      && top == w.l.threads + 4096 * NT(w.k) + 4096
      && (Current(w3.k) == c ==>
        && w3.m.cpu == Cpu(Regs(0, 0, 0, 0, 0, 0, 0), top - 8, fn, 0x08, 0x202)
        && InterruptsOn(w3.m.cpu)
        && Get(w3.m.mem, top - 8) == exit && Get(w3.m.mem, top - 4) == arg)
  {
    hide Tables;
    hide Get;
    hide Stub;
    hide Irq;
    hide FrameAt;
    hide Suspended;
    hide Run;
    hide CanRun;
    hide SleepsThrough;
    hide ThreadFrame;
    var c := ThreadCtx(NT(w.k));
    ThreadFrameStarts(w.m.mem, Top(w.l, c), fn, arg, exit);
    NewThreadStack(w.k, Top(w.l, c) - 52);
    NewThreadCreated(w.k, Top(w.l, c) - 52);
    SavedThroughout(w1, vs, c);
    SwitchResumes(Run(w1, vs), b);
    SleepsAtEnd(w1, vs, c);
  }

  lemma NewThreadCreated(k: Kernel, esp: nat)
    requires Tables(k) && NT(k) < MAX_THREADS
    ensures NT(CreateThread(k, esp).0) == NT(k) + 1
  {
    CreateThreadTables(k, esp);
  }

  lemma NewProcessCreated(k: Kernel, esp: nat)
    requires Tables(k) && NP(k) < MAX_PROCESSES
    ensures NP(CreateProcess(k, esp).0) == NP(k) + 1
  {
    CreateProcessTables(k, esp);
  }

  /** The same for a process: at its entry, on an empty stack. */
  lemma ProcessStartsAtEntry(w: World, entry: nat, w1: World, vs: seq<Move>, b: Body)
    requires Ok(w) && NP(w.k) < MAX_PROCESSES && w1 == Advance(w, SpawnProcess(entry)) && Ok(w1)
    requires CanRun(w1, vs) && SleepsThrough(w1, vs, ProcessCtx(NP(w.k))) && Allowed(Run(w1, vs), Interrupt(b))
    ensures var w3 := Advance(Run(w1, vs), Interrupt(b)); var c := ProcessCtx(NP(w.k));
      && Tables(w3.k)
      && (Current(w3.k) == c ==>
        && w3.m.cpu == Cpu(Regs(0, 0, 0, 0, 0, 0, 0), w.l.procs + 4096 * NP(w.k) + 4096, entry, 0x08, 0x202)
        && InterruptsOn(w3.m.cpu))
  {
    hide Tables;
    hide Get;
    hide Stub;
    hide Irq;
    hide FrameAt;
    hide Suspended;
    hide Run;
    hide CanRun;
    hide SleepsThrough;
    hide ProcessFrame;
    var c := ProcessCtx(NP(w.k));
    ProcessFrameStarts(w.m.mem, Top(w.l, c), entry);
    NewProcessStack(w.k, Top(w.l, c) - FRAME);
    NewProcessCreated(w.k, Top(w.l, c) - FRAME);
    SavedThroughout(w1, vs, c);
    SwitchResumes(Run(w1, vs), b);
    SleepsAtEnd(w1, vs, c);
  }

  // ---- From boot -----------------------------------------------------------------------

  /** The machine as the boot loader leaves it to kernel_main: no context yet, the boot stack in
      use. Nothing is suspended, so the invariant holds, and with it every result above. */
  function BootWorld(l: Layout, m: Mach): World {
    World(l, m, EmptyKernel(), map[])
  }

  lemma BootOk(l: Layout, m: Mach)
    requires Placed(l) && HasRoom(l, BootCtx, m.cpu)
    ensures Ok(BootWorld(l, m))
  {
    assert Tables(EmptyKernel());
    assert Current(EmptyKernel()) == BootCtx;
  }

  /** Over every run from boot, whatever is created and switched: each interrupt resumes its context
      with the CPU and the stack words it was last suspended with. */
  lemma EveryRunTransparent(l: Layout, m: Mach, before: seq<Move>, b: Body, vs: seq<Move>, b1: Body)
    requires Placed(l) && HasRoom(l, BootCtx, m.cpu)
    ensures Ok(BootWorld(l, m))
    ensures CanRun(BootWorld(l, m), before) ==>
      var w := Run(BootWorld(l, m), before); var c := Current(w.k);
      Allowed(w, Interrupt(b)) && Created(w.k, c) ==>
        var w1 := Advance(w, Interrupt(b));
        && Ok(w1)
        && (CanRun(w1, vs) && SleepsThrough(w1, vs, c) && Allowed(Run(w1, vs), Interrupt(b1)) ==>
          var w3 := Advance(Run(w1, vs), Interrupt(b1));
          Tables(w3.k) && (Current(w3.k) == c ==>
            w3.m.cpu == w.m.cpu && SameStack(l, c, w.m.cpu.esp, w3.m.mem, w.m.mem)))
  {
    hide Tables;
    hide Get;
    hide Advance;
    hide Allowed;
    hide SleepsThrough;
    hide SameStack;
    hide FrameAt;
    BootOk(l, m);
    if CanRun(BootWorld(l, m), before) {
      var w := Run(BootWorld(l, m), before);
      RunKeepsLayout(BootWorld(l, m), before);
      OkTables(w);
      if Allowed(w, Interrupt(b)) && Created(w.k, Current(w.k)) {
        AdvanceOk(w, Interrupt(b));
        var w1 := Advance(w, Interrupt(b));
        if CanRun(w1, vs) && SleepsThrough(w1, vs, Current(w.k)) && Allowed(Run(w1, vs), Interrupt(b1)) {
          SwitchTransparent(w, b, w1, vs, b1);
        }
      }
    }
  }

  lemma {:induction false} RunKeepsLayout(w: World, vs: seq<Move>)
    requires Ok(w) && CanRun(w, vs)
    ensures Run(w, vs).l == w.l
    decreases |vs|
  {
    hide Ok;
    hide Allowed;
    if vs != [] {
      OkTables(w);
      AdvanceOk(w, vs[0]);
      RunKeepsLayout(Advance(w, vs[0]), vs[1..]);
    }
  }

  lemma {:induction false} RunOn(w: World, vs: seq<Move>, more: seq<Move>)
    requires Ok(w) && CanRun(w, vs) && CanRun(Run(w, vs), more)
    ensures CanRun(w, vs + more) && Run(w, vs + more) == Run(Run(w, vs), more)
    decreases |vs|
  {
    hide Ok;
    hide Advance;
    hide Allowed;
    if vs == [] {
      assert vs + more == more;
    } else {
      OkTables(w);
      AdvanceOk(w, vs[0]);
      RunOn(Advance(w, vs[0]), vs[1..], more);
      assert (vs + more)[0] == vs[0] && (vs + more)[1..] == vs[1..] + more;
    }
  }
}
