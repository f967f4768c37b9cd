/** The context switch, boot/switch.asm: a small stack machine whose interrupts save a context on
    its own stack, ask scheduler_irq for the next stack, and restore what lies there. Words are
    unbounded naturals; a stack slot is four bytes. */
module Machine {
  import opened Sched

  type Mem = map<nat, nat>

  datatype Regs = Regs(eax: nat, ecx: nat, edx: nat, ebx: nat, ebp: nat, esi: nat, edi: nat)
  datatype Cpu = Cpu(r: Regs, esp: nat, eip: nat, cs: nat, eflags: nat)
  datatype Mach = Mach(cpu: Cpu, mem: Mem)

  const STUB := 0x1000
  const RETURN := 0x1008
  const CODE_SEGMENT := 0x08
  const START_FLAGS := 0x202
  const FRAME := 44

  function Get(mem: Mem, a: nat): nat {
    if a in mem then mem[a] else 0
  }

  // ---- Instructions --------------------------------------------------------------------

  function Push(m: Mach, v: nat): Mach
    requires m.cpu.esp >= 4
  {
    Mach(m.cpu.(esp := m.cpu.esp - 4), m.mem[m.cpu.esp - 4 := v])
  }

  /** The word `i` slots above the stack pointer. */
  function Slot(m: Mach, i: nat): nat {
    Get(m.mem, m.cpu.esp + 4 * i)
  }

  /** The interrupt gate pushes EFLAGS, CS and EIP, masks interrupts and enters the stub. */
  function Enter(m: Mach): Mach
    requires m.cpu.esp >= 12
  {
    var m1 := Push(Push(Push(m, m.cpu.eflags), m.cpu.cs), m.cpu.eip);
    m1.(cpu := m1.cpu.(eip := STUB, cs := CODE_SEGMENT,
                       eflags := if m.cpu.eflags / 512 % 2 == 1 then m.cpu.eflags - 512 else m.cpu.eflags))
  }

  function Pushad(m: Mach): Mach
    requires m.cpu.esp >= 32
  {
    var r := m.cpu.r;
    Push(Push(Push(Push(Push(Push(Push(Push(m, r.eax), r.ecx), r.edx), r.ebx), m.cpu.esp), r.ebp), r.esi), r.edi)
  }

  /** Pops EDI, ESI, EBP, skips the saved ESP, then EBX, EDX, ECX, EAX. */
  function Popad(m: Mach): Mach {
    m.(cpu := m.cpu.(r := Regs(Slot(m, 7), Slot(m, 6), Slot(m, 5), Slot(m, 4), Slot(m, 2), Slot(m, 1), Slot(m, 0)),
                     esp := m.cpu.esp + 32))
  }

  function Iretd(m: Mach): Mach {
    m.(cpu := m.cpu.(eip := Slot(m, 0), cs := Slot(m, 1), eflags := Slot(m, 2), esp := m.cpu.esp + 12))
  }

  /** What the C code of scheduler_irq does besides its result: its own stack use, below the
      return address, and the registers it may clobber. */
  datatype Body = Body(scratch: Mem, ecx: nat, edx: nat)

  /** push esp; call scheduler_irq; add esp, 4. The argument is read back from the stack. */
  function CallScheduler(m: Mach, k: Kernel, b: Body): (Mach, Kernel)
    requires m.cpu.esp >= 8 && Tables(k)
  {
    var m1 := Push(m, m.cpu.esp);
    var (k1, out) := Irq(k, Slot(m1, 0));
    var m2 := Push(m1, RETURN);
    (Mach(m2.cpu.(r := m2.cpu.r.(eax := out, ecx := b.ecx, edx := b.edx), esp := m2.cpu.esp + 4 + 4), m2.mem + b.scratch), k1)
  }

  /** mov esp, eax; then AL goes to the interrupt controller. */
  function TakeStack(m: Mach): Mach {
    m.(cpu := m.cpu.(esp := m.cpu.r.eax, r := m.cpu.r.(eax := m.cpu.r.eax / 256 * 256 + 0x20)))
  }

  /** irq0_stub from the interrupt to the iretd. */
  function Stub(m: Mach, k: Kernel, b: Body): (Mach, Kernel)
    requires m.cpu.esp >= FRAME + 8 && Tables(k)
  {
    var (m1, k1) := CallScheduler(Pushad(Enter(m)), k, b);
    (Iretd(Popad(TakeStack(m1))), k1)
  }

  // ---- Frames --------------------------------------------------------------------------

  /** The frame at address e restores this context. */
  predicate FrameAt(mem: Mem, e: nat, c: Cpu) {
    && c.esp == e + FRAME
    && c.r == Regs(Get(mem, e + 28), Get(mem, e + 24), Get(mem, e + 20), Get(mem, e + 16),
                   Get(mem, e + 8), Get(mem, e + 4), Get(mem, e))
    && c.eip == Get(mem, e + 32) && c.cs == Get(mem, e + 36) && c.eflags == Get(mem, e + 40)
  }

  lemma EnterFrame(m: Mach)
    requires m.cpu.esp >= 12
    ensures var m1 := Enter(m); var e := m.cpu.esp;
      && m1.cpu.esp == e - 12 && m1.cpu.r == m.cpu.r
      && Get(m1.mem, e - 4) == m.cpu.eflags && Get(m1.mem, e - 8) == m.cpu.cs && Get(m1.mem, e - 12) == m.cpu.eip
      && forall a: nat :: !(e - 12 <= a < e) ==> Get(m1.mem, a) == Get(m.mem, a)
  {
  }

  /** Entering a gate clears the interrupt flag, bit 9, and no other flag; iretd brings it back. */
  lemma EnterMasks(m: Mach)
    requires m.cpu.esp >= 12
    ensures var f, f1 := m.cpu.eflags, Enter(m).cpu.eflags;
      && f1 / 0x200 % 2 == 0 && f1 % 0x200 == f % 0x200 && f1 / 0x400 == f / 0x400
      && Iretd(Enter(m)).cpu == m.cpu
  {
  }

  lemma PushFour(m: Mach, v: nat, w: nat, x: nat, y: nat)
    requires m.cpu.esp >= 16
    ensures var m1 := Push(Push(Push(Push(m, v), w), x), y); var e := m.cpu.esp;
      && m1.cpu == m.cpu.(esp := e - 16)
      && Get(m1.mem, e - 4) == v && Get(m1.mem, e - 8) == w && Get(m1.mem, e - 12) == x && Get(m1.mem, e - 16) == y
      && forall a: nat :: !(e - 16 <= a < e) ==> Get(m1.mem, a) == Get(m.mem, a)
  {
  }

  lemma PushadFrame(m: Mach)
    requires m.cpu.esp >= 32
    ensures var m1 := Pushad(m); var e := m.cpu.esp; var r := m.cpu.r;
      && m1.cpu == m.cpu.(esp := e - 32)
      && Get(m1.mem, e - 4) == r.eax && Get(m1.mem, e - 8) == r.ecx && Get(m1.mem, e - 12) == r.edx
      && Get(m1.mem, e - 16) == r.ebx && Get(m1.mem, e - 24) == r.ebp && Get(m1.mem, e - 28) == r.esi
      && Get(m1.mem, e - 32) == r.edi
      && forall a: nat :: !(e - 32 <= a < e) ==> Get(m1.mem, a) == Get(m.mem, a)
  {
    hide Get;
    var r := m.cpu.r;
    PushFour(m, r.eax, r.ecx, r.edx, r.ebx);
    PushFour(Push(Push(Push(Push(m, r.eax), r.ecx), r.edx), r.ebx), m.cpu.esp, r.ebp, r.esi, r.edi);
  }

  /** Saving: the interrupt and pushad leave, right below the old stack pointer, a frame that
      restores exactly the context interrupted, and touch nothing else. */
  lemma SaveFrame(m: Mach)
    requires m.cpu.esp >= FRAME
    ensures var m1 := Pushad(Enter(m));
      && m1.cpu.esp == m.cpu.esp - FRAME
      && FrameAt(m1.mem, m1.cpu.esp, m.cpu)
      && forall a: nat :: !(m1.cpu.esp <= a < m.cpu.esp) ==> Get(m1.mem, a) == Get(m.mem, a)
  {
    hide Get;
    hide Pushad;
    hide Enter;
    EnterFrame(m);
    PushadFrame(Enter(m));
  }

  /** Restoring: popad and iretd on a frame give back the context it was made from. */
  lemma RestoreFrame(m: Mach, c: Cpu)
    requires FrameAt(m.mem, m.cpu.esp, c)
    ensures Iretd(Popad(m)) == Mach(c, m.mem)
  {
  }

  /** The scheduler sees the address of the frame, and returns the stack to switch to. */
  lemma CallSeesFrame(m: Mach, k: Kernel, b: Body)
    requires m.cpu.esp >= 8 && Tables(k)
    ensures var (m1, k1) := CallScheduler(m, k, b);
      && (k1, m1.cpu.r.eax) == Irq(k, m.cpu.esp)
      && m1.cpu.esp == m.cpu.esp
      && forall a: nat :: !(a in b.scratch) && a != m.cpu.esp - 4 && a != m.cpu.esp - 8 ==> Get(m1.mem, a) == Get(m.mem, a)
  {
    hide Irq;
  }
}
