/** boot/switch.asm and the frame-building code of thread.c and process.c as they run: registers
    and memory changed step by step. */
module Processor {
  import opened Sched
  import opened Machine
  import opened Switching
  import opened KernelCore

  class I386 {
    var eax: nat
    var ecx: nat
    var edx: nat
    var ebx: nat
    var ebp: nat
    var esi: nat
    var edi: nat
    var esp: nat
    var eip: nat
    var cs: nat
    var eflags: nat
    var mem: Mem

    ghost function State(): Mach
      reads this
    {
      Mach(Cpu(Regs(eax, ecx, edx, ebx, ebp, esi, edi), esp, eip, cs, eflags), mem)
    }

    method Push(v: nat)
      requires esp >= 4
      modifies `esp, `mem
      ensures State() == Machine.Push(old(State()), v)
    {
      esp := esp - 4;
      mem := mem[esp := v];
    }

    function Word(a: nat): nat
      reads `mem
    {
      Get(mem, a)
    }

    method Interrupt()
      requires esp >= 12
      modifies this
      ensures State() == Enter(old(State()))
    {
      Push(eflags);
      Push(cs);
      Push(eip);
      eip := STUB;
      cs := CODE_SEGMENT;
      if eflags / 512 % 2 == 1 {
        eflags := eflags - 512;
      }
    }

    method Pushad()
      requires esp >= 32
      modifies `esp, `mem
      ensures State() == Machine.Pushad(old(State()))
    {
      var top := esp;
      Push(eax);
      Push(ecx);
      Push(edx);
      Push(ebx);
      Push(top);
      Push(ebp);
      Push(esi);
      Push(edi);
    }

    method Popad()
      modifies this
      ensures State() == Machine.Popad(old(State()))
    {
      hide Get;
      edi := Word(esp);
      esi := Word(esp + 4);
      ebp := Word(esp + 8);
      ebx := Word(esp + 16);
      edx := Word(esp + 20);
      ecx := Word(esp + 24);
      eax := Word(esp + 28);
      esp := esp + 32;
    }

    method Iretd()
      modifies this
      ensures State() == Machine.Iretd(old(State()))
    {
      hide Get;
      eip, esp := Word(esp), esp + 4;
      cs, esp := Word(esp), esp + 4;
      eflags, esp := Word(esp), esp + 4;
    }

    /** push esp; call scheduler_irq; add esp, 4, with the C code's own effects b. */
    method CallSchedulerIrq(core: Core, b: Body)
      requires esp >= 8 && core.Valid()
      modifies this, core, core.threads, core.procs
      ensures core.Valid() && (State(), core.State()) == CallScheduler(old(State()), old(core.State()), b)
    {
      hide Irq;
      hide Tables;
      hide CallScheduler;
      hide Get;
      ghost var m, k := State(), core.State();
      Push(esp);
      var argument := Word(esp);
      Push(RETURN);
      ghost var m2 := State();
      var out := core.SchedulerIrq(argument);
      assert State() == m2;
      mem := mem + b.scratch;
      eax := out;
      ecx := b.ecx;
      edx := b.edx;
      esp := esp + 4;
      esp := esp + 4;
      CallSteps(m, k, b, m2, State());
    }

    /** irq0_stub, from the interrupt to its iretd. */
    method Irq0Stub(core: Core, b: Body)
      requires esp >= ROOM && core.Valid()
      modifies this, core, core.threads, core.procs
      ensures core.Valid() && (State(), core.State()) == Stub(old(State()), old(core.State()), b)
    {
      hide Irq;
      hide Tables;
      hide Machine.Popad;
      hide Machine.Iretd;
      hide Machine.Pushad;
      hide Enter;
      hide CallScheduler;
      hide Stub;
      ghost var m, k := State(), core.State();
      EnterFrame(m);
      PushadFrame(Enter(m));
      Interrupt();
      Pushad();
      CallSchedulerIrq(core, b);
      ghost var m2, k1 := State(), core.State();
      esp := eax;
      eax := eax / 256 * 256 + 0x20;
      assert State() == TakeStack(m2);
      Popad();
      Iretd();
      StubSteps(m, k, b, m2, k1);
    }

    /** thread_create: the initial frame is written through a falling pointer, then the table entry
        is filled and linked. */
    method CreateThread(l: Layout, core: Core, fn: nat, arg: nat, exit: nat) returns (r: Ptr)
      requires core.Valid() && Placed(l)
      modifies `mem, core`threadHead, core`nextTid, core.threads, core.waitNext
      ensures core.Valid()
      ensures fn != 0 && NT(old(core.State())) < MAX_THREADS ==>
        var top := Top(l, ThreadCtx(NT(old(core.State()))));
        var m1 := ThreadFrame(old(mem), top, fn, arg, exit);
        && mem == m1.mem && (core.State(), r) == Sched.CreateThread(old(core.State()), m1.cpu.esp)
        && FrameAt(mem, top - 52, Cpu(Regs(0, 0, 0, 0, 0, 0, 0), top - 8, fn, 0x08, 0x202))
        && Get(mem, top - 8) == exit && Get(mem, top - 4) == arg
      ensures fn == 0 || NT(old(core.State())) == MAX_THREADS ==>
        mem == old(mem) && core.State() == old(core.State()) && r == Null
    {
      hide Tables;
      hide Get;
      if fn == 0 {
        return Null;
      }
      var free := core.FindFreeThread();
      TableSizes(core.State());
      var sp := 0;
      if free.To? {
        var stackTop := Top(l, ThreadCtx(free.slot));
        ThreadFrameStarts(mem, stackTop, fn, arg, exit);
        sp := WriteDown(stackTop, [arg, exit, START_FLAGS, CODE_SEGMENT, fn, 0, 0, 0, 0, 0, 0, 0, 0]);
      }
      r := core.ThreadCreate(fn, sp);
    }

    /** *--sp = v for each v in turn. */
    method WriteDown(top: nat, vs: seq<nat>) returns (sp: nat)
      requires top >= 4 * |vs|
      modifies `mem
      ensures var m1 := Down(Mach(Cpu(NO_REGS, top, 0, 0, 0), old(mem)), vs); mem == m1.mem && sp == m1.cpu.esp
    {
      sp := top;
      ghost var all := Down(Mach(Cpu(NO_REGS, top, 0, 0, 0), mem), vs);
      var i := 0;
      while i < |vs|
        invariant 0 <= i <= |vs| && sp == top - 4 * i
        invariant Down(Mach(Cpu(NO_REGS, sp, 0, 0, 0), mem), vs[i..]) == all
      {
        sp := sp - 4;
        mem := mem[sp := vs[i]];
        assert vs[i..][1..] == vs[i + 1..];
        i := i + 1;
      }
    }

    /** proc_create likewise. */
    method CreateProcess(l: Layout, core: Core, entry: nat) returns (r: Ptr)
      requires core.Valid() && Placed(l)
      modifies `mem, core`readyHead, core`nextPid, core.procs
      ensures core.Valid()
      ensures NP(old(core.State())) < MAX_PROCESSES ==>
        var top := Top(l, ProcessCtx(NP(old(core.State()))));
        var m1 := ProcessFrame(old(mem), top, entry);
        && mem == m1.mem && (core.State(), r) == Sched.CreateProcess(old(core.State()), m1.cpu.esp)
        && FrameAt(mem, top - 44, Cpu(Regs(0, 0, 0, 0, 0, 0, 0), top, entry, 0x08, 0x202))
      ensures NP(old(core.State())) == MAX_PROCESSES ==> mem == old(mem) && core.State() == old(core.State()) && r == Null
    {
      hide Tables;
      hide Get;
      var free := core.FindFreePcb();
      TableSizes(core.State());
      var sp := 0;
      if free.To? {
        var stackTop := Top(l, ProcessCtx(free.slot));
        ProcessFrameStarts(mem, stackTop, entry);
        sp := WriteDown(stackTop, [START_FLAGS, CODE_SEGMENT, entry, 0, 0, 0, 0, 0, 0, 0, 0]);
      }
      r := core.ProcCreate(sp);
    }
  }

  lemma CallSteps(m: Mach, k: Kernel, b: Body, m2: Mach, m3: Mach)
    requires m.cpu.esp >= 8 && Tables(k) && m2 == Push(Push(m, m.cpu.esp), RETURN)
    requires m3 == Mach(m2.cpu.(r := m2.cpu.r.(eax := Irq(k, Slot(Push(m, m.cpu.esp), 0)).1, ecx := b.ecx, edx := b.edx),
                                esp := m2.cpu.esp + 4 + 4), m2.mem + b.scratch)
    ensures CallScheduler(m, k, b) == (m3, Irq(k, Slot(Push(m, m.cpu.esp), 0)).0)
  {
    hide Irq;
  }

  lemma StubSteps(m: Mach, k: Kernel, b: Body, m2: Mach, k1: Kernel)
    requires m.cpu.esp >= ROOM && Tables(k)
    requires Pushad(Enter(m)).cpu.esp >= 8 && (m2, k1) == CallScheduler(Pushad(Enter(m)), k, b)
    ensures Stub(m, k, b) == (Iretd(Popad(TakeStack(m2))), k1)
  {
  }
}
