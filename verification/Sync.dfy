/** The blocking mutex (kernel/mutex.c) and the counting semaphore (kernel/semaphore.c). A wait
    queue is the sequence of thread slots that wait_head and wait_next spell out. One body, up to
    its scheduler_yield, is one step. */
module Sync {
  import opened Sched

  datatype Mutex = Mutex(locked: bool, owner: Ptr, queue: seq<nat>)
  datatype Sem = Sem(value: int, queue: seq<nat>)

  const FREE: Mutex := Mutex(false, Null, [])

  /** mutex_lock: the new mutex, and whether the caller must block and yield. */
  function Lock(m: Mutex, caller: Ptr): (Mutex, bool) {
    if caller == Null then (m, false)
    else if !m.locked then (m.(locked := true, owner := caller), false)
    else if m.owner == caller then (m, false)
    else (m.(queue := m.queue + [caller.slot]), true)
  }

  /** mutex_unlock: the new mutex, and the thread to unblock. */
  function Unlock(m: Mutex, caller: Ptr): (Mutex, Ptr) {
    if !m.locked || m.owner != caller then (m, Null)
    else if m.queue == [] then (m.(locked := false, owner := Null), Null)
    else (Mutex(true, To(m.queue[0]), m.queue[1..]), To(m.queue[0]))
  }

  /** sem_wait: the new semaphore, and whether the caller must block and yield. */
  function Wait(s: Sem, caller: Ptr): (Sem, bool) {
    if caller == Null then (s, false)
    else if s.value > 0 then (s.(value := s.value - 1), false)
    else (s.(queue := s.queue + [caller.slot]), true)
  }

  /** sem_signal: the new semaphore, and the thread to unblock. */
  function Signal(s: Sem): (Sem, Ptr) {
    if s.queue != [] then (s.(queue := s.queue[1..]), To(s.queue[0]))
    else (s.(value := s.value + 1), Null)
  }

  // ---- What each object keeps ----------------------------------------------------------

  predicate Distinct(q: seq<nat>) {
    forall i, j :: 0 <= i < j < |q| ==> q[i] != q[j]
  }

  /** locked if and only if owned; waiters only while locked; the owner never waits; nobody waits
      twice. */
  predicate MutexOk(m: Mutex) {
    && (m.locked <==> m.owner.To?)
    && (m.queue != [] ==> m.locked)
    && (m.owner.To? ==> m.owner.slot !in m.queue)
    && Distinct(m.queue)
  }

  predicate SemOk(s: Sem) {
    s.value >= 0 && (s.value > 0 ==> s.queue == []) && Distinct(s.queue)
  }

  lemma LockOk(m: Mutex, caller: Ptr)
    requires MutexOk(m) && (caller.To? ==> caller.slot !in m.queue)
    ensures MutexOk(Lock(m, caller).0)
    ensures forall t :: t in Lock(m, caller).0.queue <==> t in m.queue || (Lock(m, caller).1 && caller == To(t))
    ensures caller.To? ==> Lock(m, caller).1 || Lock(m, caller).0.owner == caller
    ensures Lock(m, caller).1 ==> caller.To?
    ensures m.locked ==> Lock(m, caller).0.owner == m.owner
  {
  }

  lemma UnlockOk(m: Mutex, caller: Ptr)
    requires MutexOk(m)
    ensures var (m1, woken) := Unlock(m, caller);
      && MutexOk(m1)
      && (forall t :: t in m1.queue <==> t in m.queue && woken != To(t))
      && (woken.To? ==> woken.slot in m.queue && m1.owner == woken && m.owner == caller)
      && (m1.owner != m.owner ==> m.owner == caller)
  {
    if m.queue != [] {
      assert m.queue == [m.queue[0]] + m.queue[1..];
    }
  }

  lemma WaitOk(s: Sem, caller: Ptr)
    requires SemOk(s) && (caller.To? ==> caller.slot !in s.queue)
    ensures SemOk(Wait(s, caller).0)
    ensures forall t :: t in Wait(s, caller).0.queue <==> t in s.queue || (Wait(s, caller).1 && caller == To(t))
    ensures Wait(s, caller).1 ==> caller.To?
  {
  }

  lemma SignalOk(s: Sem)
    requires SemOk(s)
    ensures var (s1, woken) := Signal(s);
      && SemOk(s1)
      && (forall t :: t in s1.queue <==> t in s.queue && woken != To(t))
      && (woken.To? ==> woken.slot in s.queue)
  {
    if s.queue != [] {
      assert s.queue == [s.queue[0]] + s.queue[1..];
    }
  }

  // ---- Histories -----------------------------------------------------------------------

  /** Who asked, who was granted, in order; and how often a semaphore was signalled. */
  datatype Log = Log(asked: seq<nat>, granted: seq<nat>, signals: nat)

  const EMPTY_LOG := Log([], [], 0)

  /** A lock call asks unless the caller is no thread or owns the mutex already. */
  function LockLog(g: Log, m: Mutex, caller: Ptr): Log {
    if caller == Null || (m.locked && m.owner == caller) then g
    else g.(asked := g.asked + [caller.slot], granted := if m.locked then g.granted else g.granted + [caller.slot])
  }

  function WaitLog(g: Log, s: Sem, caller: Ptr): Log {
    if caller == Null then g
    else g.(asked := g.asked + [caller.slot], granted := if s.value > 0 then g.granted + [caller.slot] else g.granted)
  }

  function GrantLog(g: Log, woken: Ptr): Log {
    if woken == Null then g else g.(granted := g.granted + [woken.slot])
  }

  function SignalLog(g: Log, woken: Ptr): Log {
    GrantLog(g, woken).(signals := g.signals + 1)
  }

  /** First come, first served: everyone granted asked earlier than everyone still waiting, in
      the same order. */
  predicate MutexFair(g: Log, m: Mutex) {
    && g.asked == g.granted + m.queue
    && (m.locked ==> g.granted != [] && m.owner == To(g.granted[|g.granted| - 1]))
  }

  /** The same for a semaphore, and nothing is gained or lost. */
  predicate SemFair(g: Log, s: Sem, init: int) {
    && g.asked == g.granted + s.queue
    && s.value == init + g.signals - |g.granted|
  }

  lemma LockFair(g: Log, m: Mutex, caller: Ptr)
    requires MutexOk(m) && MutexFair(g, m)
    ensures MutexFair(LockLog(g, m, caller), Lock(m, caller).0)
  {
  }

  lemma UnlockFair(g: Log, m: Mutex, caller: Ptr)
    requires MutexOk(m) && MutexFair(g, m)
    ensures MutexFair(GrantLog(g, Unlock(m, caller).1), Unlock(m, caller).0)
  {
  }

  lemma WaitFair(g: Log, s: Sem, caller: Ptr, init: int)
    requires SemOk(s) && SemFair(g, s, init)
    ensures SemFair(WaitLog(g, s, caller), Wait(s, caller).0, init)
  {
  }

  lemma SignalFair(g: Log, s: Sem, init: int)
    requires SemOk(s) && SemFair(g, s, init)
    ensures SemFair(SignalLog(g, Signal(s).1), Signal(s).0, init)
  {
  }
}
