/** mutex.c and semaphore.c as they run: wait queues linked through the threads' wait_next, a head
    and a tail pointer in each object. */
module KernelSync {
  import opened Sched
  import opened Sync
  import opened KernelCore

  function NextIn(q: seq<nat>, i: nat): Ptr {
    if i + 1 < |q| then To(q[i + 1]) else Null
  }

  /** The threads q, linked from head to tail through wait_next. */
  ghost predicate Chain(wn: seq<Ptr>, head: Ptr, tail: Ptr, q: seq<nat>) {
    && Distinct(q)
    && (forall i :: 0 <= i < |q| ==> q[i] < |wn|)
    && head == (if q == [] then Null else To(q[0]))
    && tail == (if q == [] then Null else To(q[|q| - 1]))
    && (forall i: nat :: i < |q| ==> wn[q[i]] == NextIn(q, i))
  }

  /** A chain depends on nothing but its own threads. */
  lemma ChainFrame(wn: seq<Ptr>, wn1: seq<Ptr>, head: Ptr, tail: Ptr, q: seq<nat>)
    requires Chain(wn, head, tail, q) && |wn1| == |wn|
    requires forall t :: t in q ==> t < |wn| && wn1[t] == wn[t]
    ensures Chain(wn1, head, tail, q)
  {
  }

  lemma {:induction false} ChainAgrees(wn: seq<Ptr>, head: Ptr, tail: Ptr, tail1: Ptr, q: seq<nat>, q1: seq<nat>, k: nat)
    requires Chain(wn, head, tail, q) && Chain(wn, head, tail1, q1) && k < |q|
    ensures k < |q1| && q[k] == q1[k]
  {
    if k > 0 {
      ChainAgrees(wn, head, tail, tail1, q, q1, k - 1);
      assert NextIn(q, k - 1) == wn[q[k - 1]] == wn[q1[k - 1]] == NextIn(q1, k - 1);
    }
  }

  /** The pointers alone say who waits: following wait_next from the head spells one queue, which
      ends, at the tail. */
  lemma ChainUnique(wn: seq<Ptr>, head: Ptr, tail: Ptr, tail1: Ptr, q: seq<nat>, q1: seq<nat>)
    requires Chain(wn, head, tail, q) && Chain(wn, head, tail1, q1)
    ensures q == q1 && tail == tail1
  {
    if q != [] {
      ChainAgrees(wn, head, tail, tail1, q, q1, |q| - 1);
    }
    if q1 != [] {
      ChainAgrees(wn, head, tail1, tail, q1, q, |q1| - 1);
    }
    forall k: nat | k < |q|
      ensures k < |q1| && q[k] == q1[k]
    {
      ChainAgrees(wn, head, tail, tail1, q, q1, k);
    }
  }

  /** Appending: the old tail points to the new one, which ends the chain. */
  lemma PushChain(wn: seq<Ptr>, wn1: seq<Ptr>, q: seq<nat>, t: nat)
    requires Chain(wn, if q == [] then Null else To(q[0]), if q == [] then Null else To(q[|q| - 1]), q)
    requires t < |wn| && t !in q
    requires wn1 == if q == [] then wn[t := Null] else wn[t := Null][q[|q| - 1] := To(t)]
    ensures Chain(wn1, if q == [] then To(t) else To(q[0]), To(t), q + [t])
  {
  }

  /** Taking the head off: the rest is the chain from the second on. */
  lemma PopChain(wn: seq<Ptr>, head: Ptr, tail: Ptr, q: seq<nat>)
    requires Chain(wn, head, tail, q) && q != []
    ensures Chain(wn[q[0] := Null], wn[q[0]], if wn[q[0]] == Null then Null else tail, q[1..])
  {
    var q1 := q[1..];
    assert forall i :: 0 <= i < |q1| ==> q1[i] == q[i + 1];
    var wn1 := wn[q[0] := Null];
    forall i: nat | i < |q1|
      ensures wn1[q1[i]] == NextIn(q1, i)
    {
      assert q[i + 1] != q[0];
      assert wn[q[i + 1]] == NextIn(q, i + 1);
    }
    forall i, j | 0 <= i < j < |q1|
      ensures q1[i] != q1[j]
    {
      assert q[i + 1] != q[j + 1];
    }
    assert wn[q[0]] == NextIn(q, 0);
  }

  /** mutex_t. */
  class MutexObject {
    var locked: bool
    var owner: Ptr
    var waitHead: Ptr
    var waitTail: Ptr
    ghost var queue: seq<nat>

    ghost function Model(): Mutex
      reads this
    {
      Mutex(locked, owner, queue)
    }

    ghost predicate Linked(wn: seq<Ptr>)
      reads this
    {
      Chain(wn, waitHead, waitTail, queue)
    }

    constructor ()
      ensures Model() == FREE && forall wn :: Linked(wn)
    {
      locked, owner, waitHead, waitTail, queue := false, Null, Null, Null, [];
    }

    /** mutex_init. */
    method Init()
      modifies this
      ensures Model() == FREE && forall wn :: Linked(wn)
    {
      locked := false;
      owner := Null;
      waitHead := Null;
      waitTail := Null;
      queue := [];
    }

    /** The thread goes to the end of the queue. */
    method Enqueue(core: Core, t: nat)
      requires core.Shape() && Linked(core.waitNext[..]) && t < MAX_THREADS && t !in queue
      modifies `waitHead, `waitTail, `queue, core.waitNext
      ensures Linked(core.waitNext[..]) && queue == old(queue) + [t]
      ensures forall i :: 0 <= i < MAX_THREADS && i !in queue ==> core.waitNext[i] == old(core.waitNext[i])
    {
      core.waitNext[t] := Null;
      if waitHead == Null {
        waitHead := To(t);
        waitTail := To(t);
      } else {
        core.waitNext[waitTail.slot] := To(t);
        waitTail := To(t);
      }
      PushChain(old(core.waitNext[..]), core.waitNext[..], queue, t);
      queue := queue + [t];
    }

    /** The first thread leaves the queue. */
    method Dequeue(core: Core) returns (next: Ptr)
      requires core.Shape() && Linked(core.waitNext[..]) && queue != []
      modifies `waitHead, `waitTail, `queue, core.waitNext
      ensures next == To(old(queue[0])) && queue == old(queue[1..]) && Linked(core.waitNext[..])
      ensures forall i :: 0 <= i < MAX_THREADS && i !in old(queue) ==> core.waitNext[i] == old(core.waitNext[i])
    {
      PopChain(core.waitNext[..], waitHead, waitTail, queue);
      next := waitHead;
      waitHead := core.waitNext[next.slot];
      if waitHead == Null {
        waitTail := Null;
      }
      core.waitNext[next.slot] := Null;
      queue := queue[1..];
      assert core.waitNext[..] == old(core.waitNext[..])[next.slot := Null];
    }

    /** mutex_lock up to and with its yield. */
    method Lock(core: Core, esp: nat)
      requires core.Valid() && Linked(core.waitNext[..]) && (core.thread.To? ==> core.thread.slot !in queue)
      modifies this, core, core.threads, core.procs, core.waitNext
      ensures core.Valid() && Linked(core.waitNext[..])
      ensures Model() == Sync.Lock(old(Model()), old(core.thread)).0
      ensures core.State() == if Sync.Lock(old(Model()), old(core.thread)).1 then Irq(BlockCurrent(old(core.State())), esp).0
        else old(core.State())
      ensures forall t :: 0 <= t < MAX_THREADS && t !in queue ==> core.waitNext[t] == old(core.waitNext[t])
    {
      hide Tables;
      hide Irq;
      hide Chain;
      CurrentInRange(core.State());
      TableSizes(core.State());
      var current := core.thread;
      if current == Null { return; }
      if !locked {
        locked := true;
        owner := current;
        return;
      }
      if owner == current { return; }
      Enqueue(core, current.slot);
      ghost var k := BlockCurrent(core.State());
      core.BlockThread(current);
      assert core.State() == k;
      var out := core.SchedulerIrq(esp);
    }

    /** mutex_unlock: the lock goes straight to the first waiter. */
    method Unlock(core: Core)
      requires core.Valid() && Linked(core.waitNext[..]) && (forall i :: 0 <= i < |queue| ==> queue[i] < NT(core.State()))
      modifies this, core.threads, core.waitNext
      ensures core.Valid() && Linked(core.waitNext[..])
      ensures Model() == Sync.Unlock(old(Model()), old(core.thread)).0
      ensures core.State() == Wake(old(core.State()), Sync.Unlock(old(Model()), old(core.thread)).1)
      ensures forall t :: 0 <= t < MAX_THREADS && t !in old(queue) ==> core.waitNext[t] == old(core.waitNext[t])
    {
      hide Tables;
      if !locked { return; }
      if owner != core.thread { return; }
      if waitHead == Null {
        locked := false;
        owner := Null;
        return;
      }
      WakeTables(core.State(), queue[0]);
      TableSizes(core.State());
      var next := Dequeue(core);
      owner := next;
      locked := true;
      core.UnblockThread(next);
    }
  }

  lemma WakeTables(k: Kernel, t: nat)
    requires Tables(k) && t < NT(k)
    ensures Tables(Wake(k, To(t)))
  {
    SetStateTables(k, t, TReady);
  }

  /** semaphore_t. */
  class SemObject {
    var value: int
    var waitHead: Ptr
    var waitTail: Ptr
    ghost var queue: seq<nat>

    ghost function Model(): Sem
      reads this
    {
      Sem(value, queue)
    }

    ghost predicate Linked(wn: seq<Ptr>)
      reads this
    {
      Chain(wn, waitHead, waitTail, queue)
    }

    constructor ()
      ensures Model() == Sem(0, []) && forall wn :: Linked(wn)
    {
      value, waitHead, waitTail, queue := 0, Null, Null, [];
    }

    /** sem_init. */
    method Init(v: int)
      modifies this
      ensures Model() == Sem(v, []) && forall wn :: Linked(wn)
    {
      value := v;
      waitHead := Null;
      waitTail := Null;
      queue := [];
    }

    /** The thread goes to the end of the queue. */
    method Enqueue(core: Core, t: nat)
      requires core.Shape() && Linked(core.waitNext[..]) && t < MAX_THREADS && t !in queue
      modifies `waitHead, `waitTail, `queue, core.waitNext
      ensures Linked(core.waitNext[..]) && queue == old(queue) + [t]
      ensures forall i :: 0 <= i < MAX_THREADS && i !in queue ==> core.waitNext[i] == old(core.waitNext[i])
    {
      core.waitNext[t] := Null;
      if waitHead == Null {
        waitHead := To(t);
        waitTail := To(t);
      } else {
        core.waitNext[waitTail.slot] := To(t);
        waitTail := To(t);
      }
      PushChain(old(core.waitNext[..]), core.waitNext[..], queue, t);
      queue := queue + [t];
    }

    /** The first thread leaves the queue. */
    method Dequeue(core: Core) returns (next: Ptr)
      requires core.Shape() && Linked(core.waitNext[..]) && queue != []
      modifies `waitHead, `waitTail, `queue, core.waitNext
      ensures next == To(old(queue[0])) && queue == old(queue[1..]) && Linked(core.waitNext[..])
      ensures forall i :: 0 <= i < MAX_THREADS && i !in old(queue) ==> core.waitNext[i] == old(core.waitNext[i])
    {
      PopChain(core.waitNext[..], waitHead, waitTail, queue);
      next := waitHead;
      waitHead := core.waitNext[next.slot];
      if waitHead == Null {
        waitTail := Null;
      }
      core.waitNext[next.slot] := Null;
      queue := queue[1..];
      assert core.waitNext[..] == old(core.waitNext[..])[next.slot := Null];
    }

    /** sem_wait up to and with its yield. */
    method Wait(core: Core, esp: nat)
      requires core.Valid() && Linked(core.waitNext[..]) && (core.thread.To? ==> core.thread.slot !in queue)
      modifies this, core, core.threads, core.procs, core.waitNext
      ensures core.Valid() && Linked(core.waitNext[..])
      ensures Model() == Sync.Wait(old(Model()), old(core.thread)).0
      ensures core.State() == if Sync.Wait(old(Model()), old(core.thread)).1 then Irq(BlockCurrent(old(core.State())), esp).0
        else old(core.State())
      ensures forall t :: 0 <= t < MAX_THREADS && t !in queue ==> core.waitNext[t] == old(core.waitNext[t])
    {
      hide Tables;
      hide Irq;
      hide Chain;
      CurrentInRange(core.State());
      TableSizes(core.State());
      var current := core.thread;
      if current == Null { return; }
      if value > 0 {
        value := value - 1;
        return;
      }
      Enqueue(core, current.slot);
      ghost var k := BlockCurrent(core.State());
      core.BlockThread(current);
      assert core.State() == k;
      var out := core.SchedulerIrq(esp);
    }

    /** sem_signal: a unit goes straight to the first waiter. */
    method Signal(core: Core)
      requires core.Valid() && Linked(core.waitNext[..]) && (forall i :: 0 <= i < |queue| ==> queue[i] < NT(core.State()))
      modifies this, core.threads, core.waitNext
      ensures core.Valid() && Linked(core.waitNext[..])
      ensures Model() == Sync.Signal(old(Model())).0
      ensures core.State() == Wake(old(core.State()), Sync.Signal(old(Model())).1)
      ensures forall t :: 0 <= t < MAX_THREADS && t !in old(queue) ==> core.waitNext[t] == old(core.waitNext[t])
    {
      hide Tables;
      if waitHead.To? {
        WakeTables(core.State(), queue[0]);
        TableSizes(core.State());
        var next := Dequeue(core);
        core.UnblockThread(next);
        return;
      }
      value := value + 1;
    }
  }
}
