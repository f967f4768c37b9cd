/** mutex_thread and race_thread of kernel/kernel.c, for any number of threads and iterations: any
    thread that does not wait may take the next step, so a switch may fall anywhere, also between
    the read and the write of the shared counter. */
module Counter {
  import opened Sched
  import opened Sync

  /** Where a thread is in its i-th iteration; `temp` is its local copy of the counter. */
  datatype Pc = AtLock(i: nat) | AtRead(i: nat) | AtWrite(i: nat, temp: nat) | AtUnlock(i: nat) | Done

  datatype State = State(total: nat, mutex: Mutex, pcs: seq<Pc>)

  function Begin(i: nat, rounds: nat): Pc {
    if i < rounds then AtLock(i) else Done
  }

  predicate Initial(s: State, rounds: nat) {
    s.total == 0 && s.mutex == FREE && forall t :: 0 <= t < |s.pcs| ==> s.pcs[t] == Begin(0, rounds)
  }

  /** Thread t may take a step: it exists, is not blocked and has not finished. */
  predicate CanStep(s: State, t: nat) {
    t < |s.pcs| && t !in s.mutex.queue && s.pcs[t] != Done
  }

  /** One statement of mutex_thread. A thread that blocks in mutex_lock is past it when it is
      woken. */
  function Step(s: State, t: nat, rounds: nat): State
    requires CanStep(s, t)
  {
    match s.pcs[t]
    case AtLock(i) => s.(mutex := Lock(s.mutex, To(t)).0, pcs := s.pcs[t := AtRead(i)])
    case AtRead(i) => s.(pcs := s.pcs[t := AtWrite(i, s.total)])
    case AtWrite(i, temp) => s.(total := temp + 1, pcs := s.pcs[t := AtUnlock(i)])
    case AtUnlock(i) => s.(mutex := Unlock(s.mutex, To(t)).0, pcs := s.pcs[t := Begin(i + 1, rounds)])
  }

  // ---- Sums over threads ---------------------------------------------------------------

  /** Increments the thread has made. */
  function Made(pc: Pc, rounds: nat): nat {
    match pc
    case AtLock(i) => i
    case AtRead(i) => i
    case AtWrite(i, _) => i
    case AtUnlock(i) => i + 1
    case Done => rounds
  }

  /** Steps the thread still has to take. */
  function Left(pc: Pc, rounds: nat): int {
    match pc
    case AtLock(i) => 4 * (rounds - i)
    case AtRead(i) => 4 * (rounds - i) - 1
    case AtWrite(i, _) => 4 * (rounds - i) - 2
    case AtUnlock(i) => 4 * (rounds - i) - 3
    case Done => 0
  }

  function Sum(pcs: seq<Pc>, f: Pc -> int): int {
    if pcs == [] then 0 else f(pcs[0]) + Sum(pcs[1..], f)
  }

  lemma {:induction false} SumUpdate(pcs: seq<Pc>, t: nat, pc: Pc, f: Pc -> int)
    requires t < |pcs|
    ensures Sum(pcs[t := pc], f) == Sum(pcs, f) - f(pcs[t]) + f(pc)
  {
    if t == 0 {
      assert pcs[0 := pc][1..] == pcs[1..];
    } else {
      SumUpdate(pcs[1..], t - 1, pc, f);
      assert pcs[t := pc][1..] == pcs[1..][t - 1 := pc];
    }
  }

  lemma {:induction false} SumConst(pcs: seq<Pc>, f: Pc -> int, v: int)
    requires forall t :: 0 <= t < |pcs| ==> f(pcs[t]) == v
    ensures Sum(pcs, f) == |pcs| * v
  {
    if pcs != [] {
      SumConst(pcs[1..], f, v);
    }
  }

  function MadeBy(rounds: nat): Pc -> int {
    pc => Made(pc, rounds)
  }

  function LeftBy(rounds: nat): Pc -> int {
    pc => Left(pc, rounds)
  }

  // ---- Invariant -----------------------------------------------------------------------

  predicate InRound(pc: Pc, rounds: nat) {
    pc.Done? || pc.i < rounds
  }

  /** Between lock and unlock. */
  predicate Critical(s: State, t: nat) {
    t < |s.pcs| && t !in s.mutex.queue && (s.pcs[t].AtRead? || s.pcs[t].AtWrite? || s.pcs[t].AtUnlock?)
  }

  predicate Inv(s: State, rounds: nat) {
    && MutexOk(s.mutex)
    && (forall t :: 0 <= t < |s.pcs| ==> InRound(s.pcs[t], rounds))
    && (forall t :: t in s.mutex.queue ==> t < |s.pcs| && s.pcs[t].AtRead?)
    && (s.mutex.owner.To? ==> Critical(s, s.mutex.owner.slot))
    && (forall t: nat :: t < |s.pcs| && Critical(s, t) ==> s.mutex.owner == To(t))
    && (forall t :: 0 <= t < |s.pcs| && s.pcs[t].AtWrite? ==> s.pcs[t].temp == s.total)
    && s.total == Sum(s.pcs, MadeBy(rounds))
  }

  lemma LockStepInv(s: State, t: nat, rounds: nat)
    requires Inv(s, rounds) && CanStep(s, t) && s.pcs[t].AtLock?
    ensures Inv(Step(s, t, rounds), rounds)
  {
    var s1 := Step(s, t, rounds);
    SumUpdate(s.pcs, t, s1.pcs[t], MadeBy(rounds));
    LockOk(s.mutex, To(t));
  }

  lemma ReadStepInv(s: State, t: nat, rounds: nat)
    requires Inv(s, rounds) && CanStep(s, t) && s.pcs[t].AtRead?
    ensures Inv(Step(s, t, rounds), rounds)
  {
    var s1 := Step(s, t, rounds);
    SumUpdate(s.pcs, t, s1.pcs[t], MadeBy(rounds));
    assert Critical(s, t);
  }

  lemma WriteStepInv(s: State, t: nat, rounds: nat)
    requires Inv(s, rounds) && CanStep(s, t) && s.pcs[t].AtWrite?
    ensures Inv(Step(s, t, rounds), rounds)
  {
    var s1 := Step(s, t, rounds);
    SumUpdate(s.pcs, t, s1.pcs[t], MadeBy(rounds));
    assert Critical(s, t);
    forall u: nat | u < |s.pcs| && s.pcs[u].AtWrite?
      ensures u == t
    {
      assert Critical(s, u);
    }
  }

  lemma UnlockStepInv(s: State, t: nat, rounds: nat)
    requires Inv(s, rounds) && CanStep(s, t) && s.pcs[t].AtUnlock?
    ensures Inv(Step(s, t, rounds), rounds)
  {
    var s1 := Step(s, t, rounds);
    SumUpdate(s.pcs, t, s1.pcs[t], MadeBy(rounds));
    UnlockOk(s.mutex, To(t));
    assert Critical(s, t);
  }

  /** Each step keeps the invariant and leaves one step less to take. */
  lemma StepInv(s: State, t: nat, rounds: nat)
    requires Inv(s, rounds) && CanStep(s, t)
    ensures Inv(Step(s, t, rounds), rounds)
    ensures Sum(Step(s, t, rounds).pcs, LeftBy(rounds)) == Sum(s.pcs, LeftBy(rounds)) - 1
  {
    hide Inv;
    assert InRound(s.pcs[t], rounds) by { RoundOf(s, t, rounds); }
    SumUpdate(s.pcs, t, Step(s, t, rounds).pcs[t], LeftBy(rounds));
    match s.pcs[t]
    case AtLock(_) => LockStepInv(s, t, rounds);
    case AtRead(_) => ReadStepInv(s, t, rounds);
    case AtWrite(_, _) => WriteStepInv(s, t, rounds);
    case AtUnlock(_) => UnlockStepInv(s, t, rounds);
  }

  lemma RoundOf(s: State, t: nat, rounds: nat)
    requires Inv(s, rounds) && t < |s.pcs|
    ensures InRound(s.pcs[t], rounds)
  {
  }

  lemma InitialInv(s: State, rounds: nat)
    requires Initial(s, rounds)
    ensures Inv(s, rounds)
    ensures Sum(s.pcs, LeftBy(rounds)) == |s.pcs| * (4 * rounds)
  {
    SumConst(s.pcs, MadeBy(rounds), 0);
    SumConst(s.pcs, LeftBy(rounds), 4 * rounds);
  }

  // ---- Runs ----------------------------------------------------------------------------

  /** A schedule: which thread takes each step. */
  predicate CanRun(s: State, ts: seq<nat>, rounds: nat)
    decreases |ts|
  {
    ts == [] || (CanStep(s, ts[0]) && CanRun(Step(s, ts[0], rounds), ts[1..], rounds))
  }

  function Run(s: State, ts: seq<nat>, rounds: nat): State
    requires CanRun(s, ts, rounds)
    decreases |ts|
  {
    if ts == [] then s else Run(Step(s, ts[0], rounds), ts[1..], rounds)
  }

  predicate Finished(s: State) {
    forall t :: 0 <= t < |s.pcs| ==> s.pcs[t] == Done
  }

  lemma {:induction false} RunInv(s: State, ts: seq<nat>, rounds: nat)
    requires Inv(s, rounds) && CanRun(s, ts, rounds)
    ensures var s1 := Run(s, ts, rounds);
      && Inv(s1, rounds) && |s1.pcs| == |s.pcs|
      && Sum(s1.pcs, LeftBy(rounds)) == Sum(s.pcs, LeftBy(rounds)) - |ts|
    decreases |ts|
  {
    hide Inv;
    if ts != [] {
      StepInv(s, ts[0], rounds);
      RunInv(Step(s, ts[0], rounds), ts[1..], rounds);
    }
  }

  /** No deadlock: until all have finished, some thread can take a step. */
  lemma SomeoneCanStep(s: State, rounds: nat)
    requires Inv(s, rounds) && !Finished(s)
    ensures exists t: nat :: CanStep(s, t)
  {
    if s.mutex.owner.To? {
      assert CanStep(s, s.mutex.owner.slot);
    } else {
      var t: nat :| t < |s.pcs| && s.pcs[t] != Done;
      assert CanStep(s, t);
    }
  }

  /** Under the mutex no increment is lost, whatever the interleaving: in every reachable state the
      two threads between lock and unlock are one, and the counter is the number of increments
      made; a run that can go no further is finished, with the counter at threads * rounds; and
      every run is at most four steps per increment long. */
  lemma MutexCounts(s: State, ts: seq<nat>, rounds: nat)
    requires Initial(s, rounds) && CanRun(s, ts, rounds)
    ensures var s1 := Run(s, ts, rounds);
      && s1.total == Sum(s1.pcs, MadeBy(rounds))
      && (forall t: nat, u: nat :: Critical(s1, t) && Critical(s1, u) ==> t == u)
      && ((forall t: nat :: !CanStep(s1, t)) ==> Finished(s1))
      && (Finished(s1) <==> |ts| == |s.pcs| * (4 * rounds))
      && (Finished(s1) ==> s1.total == |s.pcs| * rounds)
  {
    InitialInv(s, rounds);
    RunInv(s, ts, rounds);
    var s1 := Run(s, ts, rounds);
    if !Finished(s1) {
      SomeoneCanStep(s1, rounds);
      LeftPositive(s1, rounds);
    } else {
      SumConst(s1.pcs, LeftBy(rounds), 0);
      SumConst(s1.pcs, MadeBy(rounds), rounds);
    }
  }

  lemma LeftNonNegative(s: State, rounds: nat)
    requires Inv(s, rounds)
    ensures Sum(s.pcs, LeftBy(rounds)) >= 0
  {
    if s.pcs != [] {
      SumAbove(s.pcs, 0, rounds);
    }
  }

  lemma LeftPositive(s: State, rounds: nat)
    requires Inv(s, rounds) && !Finished(s)
    ensures Sum(s.pcs, LeftBy(rounds)) > 0
  {
    var t: nat :| t < |s.pcs| && s.pcs[t] != Done;
    SumAbove(s.pcs, t, rounds);
  }

  lemma {:induction false} SumAbove(pcs: seq<Pc>, t: nat, rounds: nat)
    requires t < |pcs| && forall u :: 0 <= u < |pcs| ==> InRound(pcs[u], rounds)
    ensures Sum(pcs, LeftBy(rounds)) >= Left(pcs[t], rounds)
  {
    if t > 0 {
      SumAbove(pcs[1..], t - 1, rounds);
    } else if |pcs| > 1 {
      SumAbove(pcs[1..], 0, rounds);
    }
  }
}
