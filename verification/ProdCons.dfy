/** sem_producer and sem_consumer of kernel/kernel.c, for any number of producers and consumers,
    any quotas and any buffer size: any thread that is not blocked may take the next step. */
module ProdCons {
  import opened Sched
  import opened Sync

  datatype Role = Producer(id: int) | Consumer

  /** A thread in its i-th round of `quota`. `at` says what it does next:
        0 wait for a slot (an item)       1 wait for the buffer
        2 store the item (load the count) 3 load the count (store it, one less)
        4 store it, one more (take item)  5 signal the buffer
        6 signal an item (a slot)
      A thread that blocks in a wait is past it when it is woken. */
  datatype Worker = Worker(role: Role, quota: nat, i: nat, at: nat, temp: int, blocked: bool)

  /** `inserted` and `consumed` are history. */
  datatype State = State(
    emptySem: Sem, fullSem: Sem, bufferMutex: Sem,
    buffer: seq<int>, count: int, ws: seq<Worker>,
    inserted: multiset<int>, consumed: multiset<int>)

  function Item(w: Worker): int {
    if w.role.Producer? then w.role.id * 100 + w.i else 0
  }

  predicate CanStep(s: State, t: nat) {
    t < |s.ws| && !s.ws[t].blocked && s.ws[t].i < s.ws[t].quota && s.ws[t].at <= 6
  }

  /** scheduler_unblock_thread. */
  function Awaken(ws: seq<Worker>, woken: Ptr): seq<Worker> {
    if woken.To? && woken.slot < |ws| then ws[woken.slot := ws[woken.slot].(blocked := false)] else ws
  }

  function Store(buffer: seq<int>, k: int, v: int): seq<int> {
    if 0 <= k < |buffer| then buffer[k := v] else buffer
  }

  function Load(buffer: seq<int>, k: int): int {
    if 0 <= k < |buffer| then buffer[k] else 0
  }

  function Put(s: State, t: nat, w: Worker): State
    requires t < |s.ws|
  {
    s.(ws := s.ws[t := w])
  }

  function WaitFirst(s: State, t: nat): State
    requires CanStep(s, t)
  {
    var w := s.ws[t];
    var (sem, blocks) := Wait(if w.role.Producer? then s.emptySem else s.fullSem, To(t));
    var s1 := Put(s, t, w.(at := 1, blocked := blocks));
    if w.role.Producer? then s1.(emptySem := sem) else s1.(fullSem := sem)
  }

  function WaitBuffer(s: State, t: nat): State
    requires CanStep(s, t)
  {
    var (sem, blocks) := Wait(s.bufferMutex, To(t));
    Put(s, t, s.ws[t].(at := 2, blocked := blocks)).(bufferMutex := sem)
  }

  function SignalBuffer(s: State, t: nat): State
    requires CanStep(s, t)
  {
    var (sem, woken) := Signal(s.bufferMutex);
    var s1 := Put(s, t, s.ws[t].(at := 6));
    s1.(bufferMutex := sem, ws := Awaken(s1.ws, woken))
  }

  function SignalOther(s: State, t: nat): State
    requires CanStep(s, t)
  {
    var w := s.ws[t];
    var (sem, woken) := Signal(if w.role.Producer? then s.fullSem else s.emptySem);
    var s1 := Put(s, t, w.(i := w.i + 1, at := 0));
    var s2 := s1.(ws := Awaken(s1.ws, woken));
    if w.role.Producer? then s2.(fullSem := sem) else s2.(emptySem := sem)
  }

  /** One statement of a producer or a consumer. */
  function Step(s: State, t: nat): State
    requires CanStep(s, t)
  {
    var w := s.ws[t];
    if w.at == 0 then WaitFirst(s, t)
    else if w.at == 1 then WaitBuffer(s, t)
    else if w.at == 2 then
      if w.role.Producer? then Put(s, t, w.(at := 3)).(buffer := Store(s.buffer, s.count, Item(w)))
      else Put(s, t, w.(at := 3, temp := s.count))
    else if w.at == 3 then
      if w.role.Producer? then Put(s, t, w.(at := 4, temp := s.count))
      else Put(s, t, w.(at := 4)).(count := w.temp - 1)
    else if w.at == 4 then
      if w.role.Producer? then Put(s, t, w.(at := 5)).(count := w.temp + 1, inserted := s.inserted + multiset{Item(w)})
      else Put(s, t, w.(at := 5)).(consumed := s.consumed + multiset{Load(s.buffer, s.count)})
    else if w.at == 5 then SignalBuffer(s, t)
    else SignalOther(s, t)
  }

  // ---- Counting over threads -----------------------------------------------------------

  function Sum(ws: seq<Worker>, f: Worker -> int): int {
    if ws == [] then 0 else f(ws[0]) + Sum(ws[1..], f)
  }

  lemma {:induction false} SumUpdate(ws: seq<Worker>, t: nat, w: Worker, f: Worker -> int)
    requires t < |ws|
    ensures Sum(ws[t := w], f) == Sum(ws, f) - f(ws[t]) + f(w)
  {
    if t == 0 {
      assert ws[0 := w][1..] == ws[1..];
    } else {
      SumUpdate(ws[1..], t - 1, w, f);
      assert ws[t := w][1..] == ws[1..][t - 1 := w];
    }
  }

  lemma {:induction false} SumZero(ws: seq<Worker>, f: Worker -> int)
    requires forall t :: 0 <= t < |ws| ==> f(ws[t]) == 0
    ensures Sum(ws, f) == 0
  {
    if ws != [] {
      SumZero(ws[1..], f);
    }
  }

  lemma {:induction false} SumAtLeast(ws: seq<Worker>, t: nat, f: Worker -> int)
    requires t < |ws| && forall u :: 0 <= u < |ws| ==> f(ws[u]) >= 0
    ensures Sum(ws, f) >= f(ws[t])
  {
    SumNonNegative(ws[1..], f);
    if t > 0 {
      SumAtLeast(ws[1..], t - 1, f);
    }
  }

  lemma {:induction false} SumNonNegative(ws: seq<Worker>, f: Worker -> int)
    requires forall u :: 0 <= u < |ws| ==> f(ws[u]) >= 0
    ensures Sum(ws, f) >= 0
  {
    if ws != [] {
      SumNonNegative(ws[1..], f);
    }
  }

  lemma {:induction false} SumAtLeastTwo(ws: seq<Worker>, t: nat, u: nat, f: Worker -> int)
    requires t < u < |ws| && forall v :: 0 <= v < |ws| ==> f(ws[v]) >= 0
    ensures Sum(ws, f) >= f(ws[t]) + f(ws[u])
  {
    if t == 0 {
      SumAtLeast(ws[1..], u - 1, f);
    } else {
      SumAtLeastTwo(ws[1..], t - 1, u - 1, f);
    }
  }

  /** Between its wait for the buffer, granted, and its signal. */
  function Inside(): Worker -> int {
    (w: Worker) => if 2 <= w.at <= 5 && !(w.at == 2 && w.blocked) then 1 else 0
  }

  /** A slot taken from the free ones and not yet counted full, or no more counted full and not yet
      given back. */
  function SlotHeld(): Worker -> int {
    (w: Worker) =>
      if w.role.Producer? then if (w.at == 1 && !w.blocked) || 2 <= w.at <= 4 then 1 else 0
      else if 4 <= w.at <= 6 then 1 else 0
  }

  /** An item counted and not yet announced, or granted to a consumer and still counted. */
  function ItemHeld(): Worker -> int {
    (w: Worker) =>
      if w.role.Producer? then if 5 <= w.at <= 6 then 1 else 0
      else if (w.at == 1 && !w.blocked) || 2 <= w.at <= 3 then 1 else 0
  }

  /** Items a producer has put in, or, negative, a consumer has taken out. */
  function Net(): Worker -> int {
    (w: Worker) =>
      if w.role.Producer? then (w.i as int) + if w.at >= 5 then 1 else 0
      else 0 - w.i - if w.at >= 4 then 1 else 0
  }

  /** The same once all have finished. */
  function NetQuota(): Worker -> int {
    (w: Worker) => if w.role.Producer? then w.quota as int else 0 - w.quota
  }

  function StepsLeft(): Worker -> int {
    (w: Worker) => 7 * (w.quota - w.i) - w.at
  }

  // ---- Invariant -----------------------------------------------------------------------

  predicate WorkerOk(w: Worker) {
    && w.at <= 6 && w.i <= w.quota && (w.i == w.quota ==> w.at == 0)
    && (w.blocked ==> w.at == 1 || w.at == 2)
  }

  predicate WaitsSlot(ws: seq<Worker>, t: nat) {
    t < |ws| && ws[t].role.Producer? && ws[t].at == 1 && ws[t].blocked
  }

  predicate WaitsItem(ws: seq<Worker>, t: nat) {
    t < |ws| && ws[t].role.Consumer? && ws[t].at == 1 && ws[t].blocked
  }

  predicate WaitsBuffer(ws: seq<Worker>, t: nat) {
    t < |ws| && ws[t].at == 2 && ws[t].blocked
  }

  /** Who is blocked, and in which queue. */
  ghost predicate Queues(s: State) {
    && SemOk(s.emptySem) && SemOk(s.fullSem) && SemOk(s.bufferMutex)
    && (forall t :: 0 <= t < |s.ws| ==> WorkerOk(s.ws[t]))
    && (forall t: nat :: t in s.emptySem.queue <==> WaitsSlot(s.ws, t))
    && (forall t: nat :: t in s.fullSem.queue <==> WaitsItem(s.ws, t))
    && (forall t: nat :: t in s.bufferMutex.queue <==> WaitsBuffer(s.ws, t))
  }

  /** Slots are conserved, items are conserved, one thread at most is inside. */
  predicate Tokens(s: State) {
    && s.emptySem.value + Sum(s.ws, SlotHeld()) + s.count == |s.buffer|
    && s.fullSem.value + Sum(s.ws, ItemHeld()) == s.count
    && s.bufferMutex.value + Sum(s.ws, Inside()) == 1
    && s.count == Sum(s.ws, Net())
  }

  predicate IsInside(ws: seq<Worker>, t: nat) {
    t < |ws| && 2 <= ws[t].at <= 5 && !(ws[t].at == 2 && ws[t].blocked)
  }

  /** The thread inside has seen the count as it is, and a producer's item is in its slot. */
  predicate Local(s: State, w: Worker) {
    && (w.role.Consumer? && w.at == 3 ==> w.temp == s.count)
    && (w.role.Producer? && w.at == 4 ==> w.temp == s.count)
    && (w.role.Producer? && 3 <= w.at <= 4 ==> Load(s.buffer, s.count) == Item(w))
  }

  /** Items between the consumer's count and its load: still in the slot above the count. */
  function Held(w: Worker, buffer: seq<int>, count: int): multiset<int> {
    if w.role.Consumer? && w.at == 4 then multiset{Load(buffer, count)} else multiset{}
  }

  /** What is in the buffer, plus what has been consumed, is what was inserted. */
  ghost predicate Contents(s: State) {
    && 0 <= s.count <= |s.buffer|
    && (forall t: nat :: IsInside(s.ws, t) ==>
      && Local(s, s.ws[t])
      && s.inserted == multiset(s.buffer[..s.count]) + s.consumed + Held(s.ws[t], s.buffer, s.count))
    && ((forall t: nat :: !IsInside(s.ws, t)) ==> s.inserted == multiset(s.buffer[..s.count]) + s.consumed)
  }

  ghost predicate Inv(s: State) {
    Queues(s) && Tokens(s) && Contents(s)
  }

  // ---- What the tokens say -------------------------------------------------------------

  lemma CountInRange(s: State)
    requires Queues(s) && Tokens(s)
    ensures 0 <= s.count <= |s.buffer|
    ensures forall t: nat :: t < |s.ws| && SlotHeld()(s.ws[t]) == 1 ==> s.count < |s.buffer|
    ensures forall t: nat :: t < |s.ws| && ItemHeld()(s.ws[t]) == 1 ==> s.count > 0
  {
    SumNonNegative(s.ws, SlotHeld());
    SumNonNegative(s.ws, ItemHeld());
    forall t: nat | t < |s.ws| && SlotHeld()(s.ws[t]) == 1
      ensures s.count < |s.buffer|
    {
      SumAtLeast(s.ws, t, SlotHeld());
    }
    forall t: nat | t < |s.ws| && ItemHeld()(s.ws[t]) == 1
      ensures s.count > 0
    {
      SumAtLeast(s.ws, t, ItemHeld());
    }
  }

  lemma OneInside(s: State, t: nat, u: nat)
    requires Queues(s) && Tokens(s) && IsInside(s.ws, t) && IsInside(s.ws, u)
    ensures t == u
  {
    if t < u {
      SumAtLeastTwo(s.ws, t, u, Inside());
    } else if u < t {
      SumAtLeastTwo(s.ws, u, t, Inside());
    }
  }

  // ---- One step: queues ----------------------------------------------------------------

  lemma QueuesWaitFirst(s: State, t: nat)
    requires Queues(s) && CanStep(s, t) && s.ws[t].at == 0
    ensures Queues(WaitFirst(s, t))
  {
    hide Wait;
    WaitOk(s.emptySem, To(t));
    WaitOk(s.fullSem, To(t));
  }

  lemma QueuesWaitBuffer(s: State, t: nat)
    requires Queues(s) && CanStep(s, t) && s.ws[t].at == 1
    ensures Queues(WaitBuffer(s, t))
  {
    hide Wait;
    WaitOk(s.bufferMutex, To(t));
  }

  lemma QueuesSignalBuffer(s: State, t: nat)
    requires Queues(s) && CanStep(s, t) && s.ws[t].at == 5
    ensures Queues(SignalBuffer(s, t))
  {
    hide Signal;
    hide Awaken;
    var w := s.ws[t].(at := 6);
    QueuesPut(s, Put(s, t, w), t, w);
    WakeForBuffer(Put(s, t, w), SignalBuffer(s, t));
  }

  /** A thread that ends its round waits nowhere, before and after. */
  lemma NextRound(s: State, t: nat, w: Worker)
    requires Queues(s) && CanStep(s, t) && s.ws[t].at == 6
    requires w == s.ws[t].(i := s.ws[t].i + 1, at := 0)
    ensures Queues(Put(s, t, w))
  {
    QueuesPut(s, Put(s, t, w), t, w);
  }

  /** Taking the head off the queue of slots, and unblocking it. */
  lemma WakeForSlot(s: State, s1: State)
    requires Queues(s)
    requires var (sem, woken) := Signal(s.emptySem); s1 == s.(emptySem := sem, ws := Awaken(s.ws, woken))
    ensures Queues(s1)
  {
    hide Signal;
    SignalOk(s.emptySem);
  }

  lemma WakeForItem(s: State, s1: State)
    requires Queues(s)
    requires var (sem, woken) := Signal(s.fullSem); s1 == s.(fullSem := sem, ws := Awaken(s.ws, woken))
    ensures Queues(s1)
  {
    hide Signal;
    SignalOk(s.fullSem);
  }

  lemma WakeForBuffer(s: State, s1: State)
    requires Queues(s)
    requires var (sem, woken) := Signal(s.bufferMutex); s1 == s.(bufferMutex := sem, ws := Awaken(s.ws, woken))
    ensures Queues(s1)
  {
    hide Signal;
    SignalOk(s.bufferMutex);
  }

  lemma QueuesSignalOther(s: State, t: nat)
    requires Queues(s) && CanStep(s, t) && s.ws[t].at == 6
    ensures Queues(SignalOther(s, t))
  {
    hide Signal;
    hide Queues;
    hide Awaken;
    var w := s.ws[t].(i := s.ws[t].i + 1, at := 0);
    NextRound(s, t, w);
    if w.role.Producer? {
      WakeForItem(Put(s, t, w), SignalOther(s, t));
    } else {
      WakeForSlot(Put(s, t, w), SignalOther(s, t));
    }
  }

  lemma QueuesPut(s: State, s1: State, t: nat, w: Worker)
    requires Queues(s) && CanStep(s, t) && s1.ws == s.ws[t := w]
    requires s1.emptySem == s.emptySem && s1.fullSem == s.fullSem && s1.bufferMutex == s.bufferMutex
    requires WorkerOk(w) && !w.blocked && w.role == s.ws[t].role
    ensures Queues(s1)
  {
    hide SemOk;
  }

  lemma QueuesInside(s: State, t: nat)
    requires Queues(s) && CanStep(s, t) && 2 <= s.ws[t].at <= 4
    ensures Queues(Step(s, t))
  {
    hide Queues;
    hide Store;
    hide Load;
    QueuesPut(s, Step(s, t), t, Step(s, t).ws[t]);
  }

  lemma QueuesStep(s: State, t: nat)
    requires Queues(s) && CanStep(s, t)
    ensures Queues(Step(s, t))
  {
    hide Queues;
    var at := s.ws[t].at;
    if at == 0 {
      QueuesWaitFirst(s, t);
    } else if at == 1 {
      QueuesWaitBuffer(s, t);
    } else if at == 5 {
      QueuesSignalBuffer(s, t);
    } else if at == 6 {
      QueuesSignalOther(s, t);
    } else {
      QueuesInside(s, t);
    }
  }

  // ---- One step: tokens ----------------------------------------------------------------

  /** What changing one thread does to every sum. */
  lemma SumsPut(ws: seq<Worker>, t: nat, w: Worker)
    requires t < |ws|
    ensures Sum(ws[t := w], SlotHeld()) == Sum(ws, SlotHeld()) - SlotHeld()(ws[t]) + SlotHeld()(w)
    ensures Sum(ws[t := w], ItemHeld()) == Sum(ws, ItemHeld()) - ItemHeld()(ws[t]) + ItemHeld()(w)
    ensures Sum(ws[t := w], Inside()) == Sum(ws, Inside()) - Inside()(ws[t]) + Inside()(w)
    ensures Sum(ws[t := w], Net()) == Sum(ws, Net()) - Net()(ws[t]) + Net()(w)
    ensures Sum(ws[t := w], NetQuota()) == Sum(ws, NetQuota()) - NetQuota()(ws[t]) + NetQuota()(w)
    ensures Sum(ws[t := w], StepsLeft()) == Sum(ws, StepsLeft()) - StepsLeft()(ws[t]) + StepsLeft()(w)
  {
    SumUpdate(ws, t, w, SlotHeld());
    SumUpdate(ws, t, w, ItemHeld());
    SumUpdate(ws, t, w, Inside());
    SumUpdate(ws, t, w, Net());
    SumUpdate(ws, t, w, NetQuota());
    SumUpdate(ws, t, w, StepsLeft());
  }

  lemma TokensWaitFirst(s: State, t: nat)
    requires Queues(s) && Tokens(s) && CanStep(s, t) && s.ws[t].at == 0
    ensures Tokens(WaitFirst(s, t))
  {
    hide Queues;
    hide Sum;
    SumsPut(s.ws, t, WaitFirst(s, t).ws[t]);
  }

  lemma TokensWaitBuffer(s: State, t: nat)
    requires Queues(s) && Tokens(s) && CanStep(s, t) && s.ws[t].at == 1
    ensures Tokens(WaitBuffer(s, t))
  {
    hide Queues;
    hide Sum;
    SumsPut(s.ws, t, WaitBuffer(s, t).ws[t]);
  }

  lemma TokensSignalBuffer(s: State, t: nat)
    requires Queues(s) && Tokens(s) && CanStep(s, t) && s.ws[t].at == 5
    ensures Tokens(SignalBuffer(s, t))
  {
    hide Sum;
    var w := s.ws[t].(at := 6);
    SumsPut(s.ws, t, w);
    var woken := Signal(s.bufferMutex).1;
    if woken.To? {
      assert WaitsBuffer(s.ws, woken.slot);
      SumsPut(s.ws[t := w], woken.slot, s.ws[woken.slot].(blocked := false));
    }
  }

  lemma TokensSignalOther(s: State, t: nat)
    requires Queues(s) && Tokens(s) && CanStep(s, t) && s.ws[t].at == 6
    ensures Tokens(SignalOther(s, t))
  {
    hide Sum;
    var w := s.ws[t].(i := s.ws[t].i + 1, at := 0);
    SumsPut(s.ws, t, w);
    var woken := Signal(if w.role.Producer? then s.fullSem else s.emptySem).1;
    if woken.To? {
      assert WaitsItem(s.ws, woken.slot) || WaitsSlot(s.ws, woken.slot);
      SumsPut(s.ws[t := w], woken.slot, s.ws[woken.slot].(blocked := false));
    }
  }

  /** While it is inside, what a thread has seen of the count is the count. */
  lemma TokensInside(s: State, t: nat)
    requires Queues(s) && Tokens(s) && Contents(s) && CanStep(s, t) && 2 <= s.ws[t].at <= 4
    ensures Tokens(Step(s, t))
  {
    hide Queues;
    hide Sum;
    assert IsInside(s.ws, t) && Local(s, s.ws[t]);
    SumsPut(s.ws, t, Step(s, t).ws[t]);
  }

  lemma TokensStep(s: State, t: nat)
    requires Inv(s) && CanStep(s, t)
    ensures Tokens(Step(s, t))
  {
    hide Queues;
    hide Tokens;
    hide Contents;
    var at := s.ws[t].at;
    if at == 0 {
      TokensWaitFirst(s, t);
    } else if at == 1 {
      TokensWaitBuffer(s, t);
    } else if at == 5 {
      TokensSignalBuffer(s, t);
    } else if at == 6 {
      TokensSignalOther(s, t);
    } else {
      TokensInside(s, t);
    }
  }

  // ---- One step: contents --------------------------------------------------------------

  /** When nobody is inside before and after, or the same thread is, with the same data, nothing
      changes; when a thread comes in or leaves, it holds no item. */
  lemma ContentsKept(s: State, s1: State)
    requires Queues(s) && Tokens(s) && Contents(s) && |s1.ws| == |s.ws|
    requires s1.buffer == s.buffer && s1.count == s.count && s1.inserted == s.inserted && s1.consumed == s.consumed
    requires forall t: nat :: IsInside(s1.ws, t) ==>
      (IsInside(s.ws, t) && s1.ws[t] == s.ws[t]) || s1.ws[t].at == 2
    requires forall t: nat :: IsInside(s.ws, t) ==>
      (IsInside(s1.ws, t) && s1.ws[t] == s.ws[t]) || s.ws[t].at == 5
    requires forall t: nat, u: nat :: IsInside(s.ws, t) && s.ws[t].at != 5 && IsInside(s1.ws, u) ==> t == u
    ensures Contents(s1)
  {
    hide Queues;
    hide Tokens;
    forall t: nat | IsInside(s1.ws, t)
      ensures Local(s1, s1.ws[t])
      ensures s1.inserted == multiset(s1.buffer[..s1.count]) + s1.consumed + Held(s1.ws[t], s1.buffer, s1.count)
    {
      if u: nat :| IsInside(s.ws, u) {
      }
    }
    if u: nat :| IsInside(s.ws, u) {
    }
  }

  lemma ContentsOutside(s: State, t: nat)
    requires Inv(s) && CanStep(s, t) && !(2 <= s.ws[t].at <= 4)
    ensures Contents(Step(s, t))
  {
    var s1 := Step(s, t);
    QueuesStep(s, t);
    TokensStep(s, t);
    OutsideMoves(s, t);
    forall v: nat, u: nat | IsInside(s.ws, v) && s.ws[v].at != 5 && IsInside(s1.ws, u)
      ensures v == u
    {
      OneInside(s1, v, u);
    }
    ContentsKept(s, s1);
  }

  /** Waits and signals touch no data; a thread comes in at 2, the one at 5 leaves. */
  ghost predicate ComesOrGoes(s: State, s1: State) {
    && s1.buffer == s.buffer && s1.count == s.count && s1.inserted == s.inserted && s1.consumed == s.consumed
    && |s1.ws| == |s.ws|
    && (forall u: nat :: IsInside(s1.ws, u) ==> (IsInside(s.ws, u) && s1.ws[u] == s.ws[u]) || s1.ws[u].at == 2)
    && (forall u: nat :: IsInside(s.ws, u) ==> (IsInside(s1.ws, u) && s1.ws[u] == s.ws[u]) || s.ws[u].at == 5)
  }

  lemma WaitsCome(s: State, t: nat)
    requires CanStep(s, t) && s.ws[t].at <= 1
    ensures ComesOrGoes(s, Step(s, t))
  {
    hide Wait;
  }

  lemma BufferSignalGoes(s: State, t: nat)
    requires Queues(s) && CanStep(s, t) && s.ws[t].at == 5
    ensures ComesOrGoes(s, SignalBuffer(s, t))
  {
    hide SemOk;
    hide Signal;
    SignalOk(s.bufferMutex);
  }

  lemma OtherSignalGoes(s: State, t: nat)
    requires Queues(s) && CanStep(s, t) && s.ws[t].at == 6
    ensures ComesOrGoes(s, SignalOther(s, t))
  {
    hide SemOk;
    hide Signal;
    SignalOk(s.emptySem);
    SignalOk(s.fullSem);
  }

  lemma OutsideMoves(s: State, t: nat)
    requires Queues(s) && CanStep(s, t) && !(2 <= s.ws[t].at <= 4)
    ensures ComesOrGoes(s, Step(s, t))
  {
    hide Queues;
    hide ComesOrGoes;
    if s.ws[t].at <= 1 {
      WaitsCome(s, t);
    } else if s.ws[t].at == 5 {
      BufferSignalGoes(s, t);
    } else {
      OtherSignalGoes(s, t);
    }
  }

  lemma TakeOneMore(buffer: seq<int>, c: nat)
    requires c < |buffer|
    ensures multiset(buffer[..c + 1]) == multiset(buffer[..c]) + multiset{buffer[c]}
  {
    assert buffer[..c + 1] == buffer[..c] + [buffer[c]];
  }

  /** The thread inside, alone, moves one item. */
  lemma ContentsInside(s: State, t: nat)
    requires Inv(s) && CanStep(s, t) && 2 <= s.ws[t].at <= 4
    ensures Contents(Step(s, t))
  {
    hide Queues;
    hide Tokens;
    var s1 := Step(s, t);
    QueuesStep(s, t);
    TokensStep(s, t);
    CountInRange(s);
    CountInRange(s1);
    assert IsInside(s.ws, t) && IsInside(s1.ws, t);
    forall u: nat | IsInside(s1.ws, u)
      ensures u == t
    {
      OneInside(s1, t, u);
    }
    if s.ws[t].role.Producer? {
      ProducerItem(s, t);
    } else {
      ConsumerItem(s, t);
    }
  }

  /** The buffer below the count, what was consumed, and the item in a consumer's hand. */
  ghost predicate Balanced(s: State, w: Worker) {
    && 0 <= s.count <= |s.buffer|
    && s.inserted == multiset(s.buffer[..s.count]) + s.consumed + Held(w, s.buffer, s.count)
  }

  lemma ProducerStores(s: State, t: nat)
    requires CanStep(s, t) && s.ws[t].at == 2 && s.ws[t].role.Producer?
    requires Balanced(s, s.ws[t]) && s.count < |s.buffer|
    ensures Balanced(Step(s, t), Step(s, t).ws[t]) && Local(Step(s, t), Step(s, t).ws[t])
  {
    assert Step(s, t).buffer[..s.count] == s.buffer[..s.count];
  }

  lemma ProducerCounts(s: State, t: nat)
    requires CanStep(s, t) && s.ws[t].at == 4 && s.ws[t].role.Producer?
    requires Balanced(s, s.ws[t]) && Local(s, s.ws[t]) && s.count < |s.buffer|
    ensures Balanced(Step(s, t), Step(s, t).ws[t]) && Local(Step(s, t), Step(s, t).ws[t])
  {
    hide Item;
    TakeOneMore(s.buffer, s.count);
  }

  lemma ProducerItem(s: State, t: nat)
    requires CanStep(s, t) && 2 <= s.ws[t].at <= 4 && s.ws[t].role.Producer?
    requires Balanced(s, s.ws[t]) && Local(s, s.ws[t]) && s.count < |s.buffer|
    ensures Balanced(Step(s, t), Step(s, t).ws[t]) && Local(Step(s, t), Step(s, t).ws[t])
  {
    if s.ws[t].at == 2 {
      ProducerStores(s, t);
    } else if s.ws[t].at == 4 {
      ProducerCounts(s, t);
    }
  }

  lemma ConsumerTakes(s: State, t: nat)
    requires CanStep(s, t) && s.ws[t].at == 3 && s.ws[t].role.Consumer?
    requires Balanced(s, s.ws[t]) && Local(s, s.ws[t]) && s.count > 0
    ensures Balanced(Step(s, t), Step(s, t).ws[t]) && Local(Step(s, t), Step(s, t).ws[t])
  {
    TakeOneMore(s.buffer, s.count - 1);
  }

  lemma ConsumerItem(s: State, t: nat)
    requires CanStep(s, t) && 2 <= s.ws[t].at <= 4 && s.ws[t].role.Consumer?
    requires Balanced(s, s.ws[t]) && Local(s, s.ws[t])
    requires if s.ws[t].at == 4 then s.count < |s.buffer| else s.count > 0
    ensures Balanced(Step(s, t), Step(s, t).ws[t]) && Local(Step(s, t), Step(s, t).ws[t])
  {
    if s.ws[t].at == 3 {
      ConsumerTakes(s, t);
    }
  }

  /** Every step of every thread keeps the invariant and leaves one step less to take. */
  lemma StepInv(s: State, t: nat)
    requires Inv(s) && CanStep(s, t)
    ensures Inv(Step(s, t))
    ensures |Step(s, t).ws| == |s.ws| && |Step(s, t).buffer| == |s.buffer|
    ensures Sum(Step(s, t).ws, StepsLeft()) == Sum(s.ws, StepsLeft()) - 1
    ensures Sum(Step(s, t).ws, NetQuota()) == Sum(s.ws, NetQuota())
  {
    hide Contents;
    hide Tokens;
    hide Queues;
    QueuesStep(s, t);
    TokensStep(s, t);
    if 2 <= s.ws[t].at <= 4 {
      ContentsInside(s, t);
    } else {
      ContentsOutside(s, t);
    }
    StepsLess(s, t);
  }

  lemma AwakenKeeps(ws: seq<Worker>, woken: Ptr, u: nat)
    requires u < |ws|
    ensures |Awaken(ws, woken)| == |ws| && Awaken(ws, woken)[u] == ws[u].(blocked := Awaken(ws, woken)[u].blocked)
  {
  }

  /** Rounds and quotas: only the thread that steps may get on to its next round. */
  lemma StepForward(s: State, t: nat, u: nat)
    requires CanStep(s, t) && u < |s.ws|
    ensures |Step(s, t).ws| == |s.ws|
    ensures Step(s, t).ws[u].quota == s.ws[u].quota && s.ws[u].i <= Step(s, t).ws[u].i
  {
    hide Awaken;
    hide Wait;
    hide Signal;
    hide Store;
    hide Load;
    var w := s.ws[t];
    if w.at == 5 {
      AwakenKeeps(s.ws[t := w.(at := 6)], Signal(s.bufferMutex).1, u);
    } else if w.at == 6 {
      AwakenKeeps(s.ws[t := w.(i := w.i + 1, at := 0)],
                  Signal(if w.role.Producer? then s.fullSem else s.emptySem).1, u);
    }
  }

  lemma StepsLess(s: State, t: nat)
    requires CanStep(s, t)
    ensures |Step(s, t).ws| == |s.ws| && |Step(s, t).buffer| == |s.buffer|
    ensures Sum(Step(s, t).ws, StepsLeft()) == Sum(s.ws, StepsLeft()) - 1
    ensures Sum(Step(s, t).ws, NetQuota()) == Sum(s.ws, NetQuota())
  {
    hide Sum;
    var w := s.ws[t];
    if w.at == 5 || w.at == 6 {
      var w1 := if w.at == 5 then w.(at := 6) else w.(i := w.i + 1, at := 0);
      SumsPut(s.ws, t, w1);
      var woken := if w.at == 5 then Signal(s.bufferMutex).1 else Signal(if w.role.Producer? then s.fullSem else s.emptySem).1;
      if woken.To? && woken.slot < |s.ws| {
        SumsPut(s.ws[t := w1], woken.slot, s.ws[t := w1][woken.slot].(blocked := false));
      }
    } else {
      SumsPut(s.ws, t, Step(s, t).ws[t]);
    }
  }

  // ---- What was inserted ---------------------------------------------------------------

  /** The first n items of the producer with this id. */
  function Items(id: int, n: nat): multiset<int> {
    if n == 0 then multiset{} else Items(id, n - 1) + multiset{id * 100 + n - 1}
  }

  function ItemsOf(w: Worker): multiset<int> {
    if w.role.Producer? then Items(w.role.id, Count(w)) else multiset{}
  }

  function Produced(ws: seq<Worker>): multiset<int> {
    if ws == [] then multiset{} else ItemsOf(ws[0]) + Produced(ws[1..])
  }

  lemma {:induction false} ProducedUpdate(ws: seq<Worker>, t: nat, w: Worker, more: multiset<int>)
    requires t < |ws| && ItemsOf(w) == ItemsOf(ws[t]) + more
    ensures Produced(ws[t := w]) == Produced(ws) + more
  {
    if t == 0 {
      assert ws[0 := w][1..] == ws[1..];
    } else {
      ProducedUpdate(ws[1..], t - 1, w, more);
      assert ws[t := w][1..] == ws[1..][t - 1 := w];
    }
  }

  lemma AwakenProduced(ws: seq<Worker>, woken: Ptr)
    ensures Produced(Awaken(ws, woken)) == Produced(ws)
  {
    if woken.To? && woken.slot < |ws| {
      ProducedUpdate(ws, woken.slot, ws[woken.slot].(blocked := false), multiset{});
    }
  }

  function Count(w: Worker): nat {
    if w.at >= 5 then w.i + 1 else w.i
  }

  lemma SameProduced(ws: seq<Worker>, t: nat, w: Worker)
    requires t < |ws| && w.role == ws[t].role && Count(w) == Count(ws[t])
    ensures Produced(ws[t := w]) == Produced(ws)
  {
    ProducedUpdate(ws, t, w, multiset{});
  }

  lemma OneMoreProduced(ws: seq<Worker>, t: nat)
    requires t < |ws| && ws[t].role.Producer? && ws[t].at == 4
    ensures Produced(ws[t := ws[t].(at := 5)]) == Produced(ws) + multiset{Item(ws[t])}
  {
    ProducedUpdate(ws, t, ws[t].(at := 5), multiset{Item(ws[t])});
  }

  lemma ConsumerProduced(ws: seq<Worker>, t: nat, w: Worker)
    requires t < |ws| && w.role == ws[t].role && w.role.Consumer?
    ensures Produced(ws[t := w]) == Produced(ws)
  {
    ProducedUpdate(ws, t, w, multiset{});
  }

  lemma ProducedStep(s: State, t: nat)
    requires CanStep(s, t) && s.inserted == Produced(s.ws)
    ensures Step(s, t).inserted == Produced(Step(s, t).ws)
  {
    hide Produced;
    hide Awaken;
    hide Wait;
    hide Signal;
    var w := s.ws[t];
    if w.at == 5 {
      SameProduced(s.ws, t, w.(at := 6));
      AwakenProduced(s.ws[t := w.(at := 6)], Signal(s.bufferMutex).1);
    } else if w.at == 6 {
      var w1 := w.(i := w.i + 1, at := 0);
      SameProduced(s.ws, t, w1);
      AwakenProduced(s.ws[t := w1], Signal(if w.role.Producer? then s.fullSem else s.emptySem).1);
    } else if w.role.Consumer? {
      ConsumerProduced(s.ws, t, Step(s, t).ws[t]);
    } else if w.at == 4 {
      OneMoreProduced(s.ws, t);
    } else {
      SameProduced(s.ws, t, Step(s, t).ws[t]);
    }
  }

  // ---- Runs ----------------------------------------------------------------------------

  /** cmd_semdemo: the semaphores as initialised, and all threads at their start. */
  predicate Initial(s: State) {
    && s.emptySem == Sem(|s.buffer|, []) && s.fullSem == Sem(0, []) && s.bufferMutex == Sem(1, [])
    && s.count == 0 && s.inserted == multiset{} && s.consumed == multiset{}
    && forall t :: 0 <= t < |s.ws| ==> s.ws[t].i == 0 && s.ws[t].at == 0 && !s.ws[t].blocked
  }

  lemma {:induction false} NothingProduced(ws: seq<Worker>)
    requires forall t :: 0 <= t < |ws| ==> ws[t].i == 0 && ws[t].at == 0
    ensures Produced(ws) == multiset{}
  {
    if ws != [] {
      NothingProduced(ws[1..]);
    }
  }

  lemma InitialInv(s: State)
    requires Initial(s)
    ensures Inv(s) && s.inserted == Produced(s.ws)
  {
    SumZero(s.ws, SlotHeld());
    SumZero(s.ws, ItemHeld());
    SumZero(s.ws, Inside());
    SumZero(s.ws, Net());
    NothingProduced(s.ws);
  }

  predicate CanRun(s: State, ts: seq<nat>)
    decreases |ts|
  {
    ts == [] || (CanStep(s, ts[0]) && CanRun(Step(s, ts[0]), ts[1..]))
  }

  function Run(s: State, ts: seq<nat>): State
    requires CanRun(s, ts)
    decreases |ts|
  {
    if ts == [] then s else Run(Step(s, ts[0]), ts[1..])
  }

  lemma {:induction false} RunInv(s: State, ts: seq<nat>)
    requires Inv(s) && CanRun(s, ts) && s.inserted == Produced(s.ws)
    ensures var s1 := Run(s, ts);
      && Inv(s1) && s1.inserted == Produced(s1.ws) && |s1.ws| == |s.ws| && |s1.buffer| == |s.buffer|
      && Sum(s1.ws, StepsLeft()) == Sum(s.ws, StepsLeft()) - |ts|
      && Sum(s1.ws, NetQuota()) == Sum(s.ws, NetQuota())
    decreases |ts|
  {
    hide Inv;
    hide Step;
    hide CanStep;
    if ts != [] {
      StepInv(s, ts[0]);
      ProducedStep(s, ts[0]);
      RunInv(Step(s, ts[0]), ts[1..]);
    }
  }

  predicate Finished(s: State) {
    forall t :: 0 <= t < |s.ws| ==> s.ws[t].i == s.ws[t].quota
  }

  lemma {:induction false} SumLess(ws: seq<Worker>, t: nat, f: Worker -> int, g: Worker -> int)
    requires t < |ws| && f(ws[t]) < g(ws[t]) && forall u :: 0 <= u < |ws| ==> f(ws[u]) <= g(ws[u])
    ensures Sum(ws, f) < Sum(ws, g)
  {
    SumLeq(ws[1..], f, g);
    if t > 0 {
      SumLess(ws[1..], t - 1, f, g);
    }
  }

  lemma {:induction false} SumLeq(ws: seq<Worker>, f: Worker -> int, g: Worker -> int)
    requires forall u :: 0 <= u < |ws| ==> f(ws[u]) <= g(ws[u])
    ensures Sum(ws, f) <= Sum(ws, g)
  {
    if ws != [] {
      SumLeq(ws[1..], f, g);
    }
  }

  lemma NobodyHolds(s: State)
    requires Inv(s) && forall t: nat :: !CanStep(s, t)
    ensures forall t: nat :: t < |s.ws| ==> s.ws[t].i == s.ws[t].quota || (s.ws[t].blocked && s.ws[t].at == 1)
    ensures s.emptySem.value + s.count == |s.buffer| && s.fullSem.value == s.count
  {
    hide Contents;
    forall t: nat | t < |s.ws|
      ensures s.ws[t].i == s.ws[t].quota || s.ws[t].blocked
    {
      assert !CanStep(s, t);
    }
    SumZero(s.ws, Inside());
    forall t: nat | t < |s.ws|
      ensures !(s.ws[t].blocked && s.ws[t].at == 2)
    {
      assert WaitsBuffer(s.ws, t) ==> t in s.bufferMutex.queue;
    }
    SumZero(s.ws, SlotHeld());
    SumZero(s.ws, ItemHeld());
  }

  /** No deadlock: with at least one slot, and as many items to consume as to produce, some
      unfinished thread can always take a step. */
  lemma SomeoneCanStep(s: State)
    requires Inv(s) && |s.buffer| > 0 && Sum(s.ws, NetQuota()) == 0 && !Finished(s)
    ensures exists t: nat :: CanStep(s, t)
  {
    if forall t: nat :: !CanStep(s, t) {
      NobodyHolds(s);
      var t: nat :| t < |s.ws| && s.ws[t].i != s.ws[t].quota;
      if u: nat :| u < |s.ws| && WaitsSlot(s.ws, u) {
        assert u in s.emptySem.queue;
        forall v: nat | v < |s.ws|
          ensures Net()(s.ws[v]) <= NetQuota()(s.ws[v])
        {
          assert WaitsItem(s.ws, v) ==> v in s.fullSem.queue;
        }
        SumLess(s.ws, u, Net(), NetQuota());
        assert false;
      } else {
        assert WaitsItem(s.ws, t) by { assert !WaitsSlot(s.ws, t); }
        assert t in s.fullSem.queue;
        forall v: nat | v < |s.ws|
          ensures NetQuota()(s.ws[v]) <= Net()(s.ws[v])
        {
          assert !WaitsSlot(s.ws, v);
        }
        SumLess(s.ws, t, NetQuota(), Net());
        assert false;
      }
    }
  }

  // ---- The theorems --------------------------------------------------------------------

  /** In every reachable state, after any interleaving: the count is between 0 and the buffer size;
      what was inserted is what the producers made so far, and while nobody is inside it is the
      buffer up to the count plus what was consumed; one thread at most is inside, and whoever
      stores or loads an item does so within the buffer. */
  lemma BufferSafe(s: State, ts: seq<nat>)
    requires Initial(s) && CanRun(s, ts)
    ensures var s1 := Run(s, ts);
      && 0 <= s1.count <= |s.buffer| == |s1.buffer|
      && s1.inserted == Produced(s1.ws)
      && ((forall t: nat :: !IsInside(s1.ws, t)) ==> s1.inserted == multiset(s1.buffer[..s1.count]) + s1.consumed)
      && (forall t: nat, u: nat :: IsInside(s1.ws, t) && IsInside(s1.ws, u) ==> t == u)
      && (forall t: nat :: CanStep(s1, t) && s1.ws[t].role.Producer? && s1.ws[t].at == 2 ==> s1.count < |s1.buffer|)
      && (forall t: nat :: CanStep(s1, t) && s1.ws[t].role.Consumer? && s1.ws[t].at == 4 ==> s1.count < |s1.buffer|)
      && (forall t: nat :: CanStep(s1, t) && s1.ws[t].role.Consumer? && s1.ws[t].at == 3 ==> s1.count > 0)
  {
    hide Initial;
    hide CanRun;
    hide Run;
    InitialInv(s);
    RunInv(s, ts);
    var s1 := Run(s, ts);
    CountInRange(s1);
    forall t: nat, u: nat | IsInside(s1.ws, t) && IsInside(s1.ws, u)
      ensures t == u
    {
      OneInside(s1, t, u);
    }
  }

  /** Completion: with at least one slot and as many items to consume as to produce, a run that can
      go no further is finished; it is then exactly as long as all threads' steps together, the
      buffer is empty, and the items consumed are exactly the items produced. */
  lemma AllConsumed(s: State, ts: seq<nat>)
    requires Initial(s) && CanRun(s, ts) && |s.buffer| > 0 && Sum(s.ws, NetQuota()) == 0
    ensures var s1 := Run(s, ts);
      && ((forall t: nat :: !CanStep(s1, t)) <==> Finished(s1))
      && (Finished(s1) <==> |ts| == Sum(s.ws, StepsLeft()))
      && (Finished(s1) ==> s1.count == 0 && s1.consumed == s1.inserted == Produced(s1.ws))
  {
    hide Initial;
    hide CanRun;
    hide Run;
    hide Contents;
    InitialInv(s);
    RunInv(s, ts);
    var s1 := Run(s, ts);
    if Finished(s1) {
      FinishedEmpty(s1);
    } else {
      SomeoneCanStep(s1);
      var t: nat :| t < |s1.ws| && s1.ws[t].i != s1.ws[t].quota;
      SumAtLeast(s1.ws, t, StepsLeft());
    }
  }

  lemma FinishedEmpty(s: State)
    requires Inv(s) && Finished(s) && Sum(s.ws, NetQuota()) == 0
    ensures s.count == 0 && s.consumed == s.inserted && Sum(s.ws, StepsLeft()) == 0
  {
    SumLeq(s.ws, Net(), NetQuota());
    SumLeq(s.ws, NetQuota(), Net());
    SumZero(s.ws, StepsLeft());
    assert forall t: nat :: !IsInside(s.ws, t);
  }

  // ---- Which item ----------------------------------------------------------------------

  /** A consumer that has lowered the count and takes its item next. */
  predicate Taking(ws: seq<Worker>, t: nat) {
    t < |ws| && ws[t].role.Consumer? && ws[t].at == 4
  }

  /** The items in the buffer, as a history: a producer pushes its item when it counts it, a consumer
      pops the last one when it takes its item. */
  function StackAfter(s: State, t: nat, stack: seq<int>): seq<int>
    requires t < |s.ws|
  {
    var w := s.ws[t];
    if w.role.Producer? && w.at == 4 then stack + [w.role.id * 100 + w.i]
    else if Taking(s.ws, t) && stack != [] then stack[..|stack| - 1]
    else stack
  }

  function StackOf(s: State, ts: seq<nat>, stack: seq<int>): seq<int>
    requires CanRun(s, ts)
    decreases |ts|
  {
    if ts == [] then stack else StackOf(Step(s, ts[0]), ts[1..], StackAfter(s, ts[0], stack))
  }

  /** The buffer up to the count is the stack; a consumer about to take has its item just above. */
  ghost predicate Stacked(s: State, stack: seq<int>) {
    && 0 <= s.count <= |s.buffer|
    && (forall t: nat :: Taking(s.ws, t) ==> s.count < |s.buffer| && stack == s.buffer[..s.count] + [s.buffer[s.count]])
    && ((forall t: nat :: !Taking(s.ws, t)) ==> stack == s.buffer[..s.count])
  }

  lemma TakingAlone(s: State, t: nat, u: nat)
    requires Inv(s) && IsInside(s.ws, t) && Taking(s.ws, u)
    ensures u == t
  {
    assert WorkerOk(s.ws[u]) && IsInside(s.ws, u);
    OneInside(s, t, u);
  }

  lemma TakingStays(s: State, t: nat)
    requires CanStep(s, t) && !(2 <= s.ws[t].at <= 4)
    ensures |Step(s, t).ws| == |s.ws|
    ensures forall u: nat :: Taking(Step(s, t).ws, u) <==> Taking(s.ws, u)
  {
    hide Wait;
    hide Signal;
    hide Store;
    StepForward(s, t, t);
  }

  /** One step moves the stack as it should, and a consumer takes what is on top of it. */
  lemma StackStep(s: State, t: nat, stack: seq<int>)
    requires Inv(s) && CanStep(s, t) && Stacked(s, stack)
    ensures Stacked(Step(s, t), StackAfter(s, t, stack))
    ensures Taking(s.ws, t) ==>
      stack != [] && Step(s, t).consumed == s.consumed + multiset{stack[|stack| - 1]}
    ensures !Taking(s.ws, t) ==> Step(s, t).consumed == s.consumed
  {
    hide Queues;
    hide Tokens;
    var s1 := Step(s, t);
    StepInv(s, t);
    CountInRange(s);
    CountInRange(s1);
    if 2 <= s.ws[t].at <= 4 {
      StackInside(s, t, stack);
    } else {
      TakingStays(s, t);
      OutsideMoves(s, t);
    }
  }

  /** The thread inside is the only one that can be taking. */
  lemma InsideTakes(s: State, t: nat)
    requires Inv(s) && IsInside(s.ws, t)
    ensures forall u: nat :: Taking(s.ws, u) ==> u == t
  {
    forall u: nat | Taking(s.ws, u)
      ensures u == t
    {
      TakingAlone(s, t, u);
    }
  }

  lemma PushItem(s: State, t: nat, stack: seq<int>)
    requires CanStep(s, t) && 2 <= s.ws[t].at <= 4 && s.ws[t].role.Producer?
    requires 0 <= s.count < |s.buffer| && Local(s, s.ws[t]) && stack == s.buffer[..s.count]
    ensures |Step(s, t).buffer| == |s.buffer| && 0 <= Step(s, t).count <= |s.buffer|
    ensures Step(s, t).buffer[..Step(s, t).count] == StackAfter(s, t, stack)
    ensures Step(s, t).consumed == s.consumed
  {
    if s.ws[t].at == 2 {
      assert Step(s, t).buffer[..s.count] == s.buffer[..s.count];
    } else if s.ws[t].at == 4 {
      assert s.buffer[..s.count + 1] == s.buffer[..s.count] + [s.buffer[s.count]];
    }
  }

  lemma PopItem(s: State, t: nat, stack: seq<int>)
    requires CanStep(s, t) && 2 <= s.ws[t].at <= 4 && s.ws[t].role.Consumer?
    requires 0 <= s.count <= |s.buffer| && Local(s, s.ws[t])
    requires s.ws[t].at == 3 ==> s.count > 0
    requires if s.ws[t].at == 4 then s.count < |s.buffer| && stack == s.buffer[..s.count] + [s.buffer[s.count]]
      else stack == s.buffer[..s.count]
    ensures var s1 := Step(s, t); var next := StackAfter(s, t, stack);
      && s1.buffer == s.buffer && 0 <= s1.count <= |s.buffer|
      && (if s.ws[t].at == 3 then s1.count < |s.buffer| && next == s.buffer[..s1.count] + [s.buffer[s1.count]]
          else next == s.buffer[..s1.count])
      && s1.consumed == if s.ws[t].at == 4 then s.consumed + multiset{stack[|stack| - 1]} else s.consumed
  {
    if s.ws[t].at == 3 {
      assert s.buffer[..s.count] == s.buffer[..s.count - 1] + [s.buffer[s.count - 1]];
    }
  }

  lemma StackInside(s: State, t: nat, stack: seq<int>)
    requires Inv(s) && CanStep(s, t) && 2 <= s.ws[t].at <= 4 && Stacked(s, stack)
    requires s.ws[t].role.Producer? ==> s.count < |s.buffer|
    requires s.ws[t].role.Consumer? && s.ws[t].at == 3 ==> s.count > 0
    requires Inv(Step(s, t))
    ensures Stacked(Step(s, t), StackAfter(s, t, stack))
    ensures Taking(s.ws, t) ==>
      stack != [] && Step(s, t).consumed == s.consumed + multiset{stack[|stack| - 1]}
    ensures !Taking(s.ws, t) ==> Step(s, t).consumed == s.consumed
  {
    hide Inv;
    hide Local;
    hide Step;
    hide StackAfter;
    hide Stacked;
    hide IsInside;
    InsidePlace(s, t);
    InsideTakes(s, t);
    InsideTakes(Step(s, t), t);
    StackedIs(s, t, stack);
    StackedIs(Step(s, t), t, StackAfter(s, t, stack));
    if s.ws[t].role.Producer? {
      PushItem(s, t, stack);
    } else {
      PopItem(s, t, stack);
    }
  }

  /** When at most thread t can be taking. */
  lemma StackedIs(s: State, t: nat, stack: seq<int>)
    requires forall u: nat :: Taking(s.ws, u) ==> u == t
    ensures Stacked(s, stack) <==>
      && 0 <= s.count <= |s.buffer|
      && if Taking(s.ws, t) then s.count < |s.buffer| && stack == s.buffer[..s.count] + [s.buffer[s.count]]
         else stack == s.buffer[..s.count]
  {
    assert !Taking(s.ws, t) ==> forall u: nat :: !Taking(s.ws, u);
  }

  lemma InsidePlace(s: State, t: nat)
    requires Inv(s) && CanStep(s, t) && 2 <= s.ws[t].at <= 4
    ensures IsInside(s.ws, t) && Local(s, s.ws[t])
    ensures var s1 := Step(s, t);
      && |s1.ws| == |s.ws| && |s1.buffer| == |s.buffer| && IsInside(s1.ws, t)
      && s1.ws[t].role == s.ws[t].role && s1.ws[t].at == s.ws[t].at + 1
  {
    hide Queues;
    hide Tokens;
    assert IsInside(s.ws, t);
  }

  lemma Steps(s: State, t: nat)
    requires CanStep(s, t)
    ensures t < |s.ws|
  {
  }

  lemma {:induction false} StackRun(s: State, ts: seq<nat>, stack: seq<int>)
    requires Inv(s) && CanRun(s, ts) && Stacked(s, stack)
    ensures Inv(Run(s, ts)) && Stacked(Run(s, ts), StackOf(s, ts, stack))
    decreases |ts|
  {
    hide Inv;
    hide Step;
    hide CanStep;
    hide Stacked;
    if ts != [] {
      StepInv(s, ts[0]);
      assert ts[0] < |s.ws| by { Steps(s, ts[0]); }
      StackStep(s, ts[0], stack);
      StackRun(Step(s, ts[0]), ts[1..], StackAfter(s, ts[0], stack));
    }
  }

  /** Last in, first out: over every run, whatever the interleaving, the buffer up to the count holds
      the items counted and not yet taken, in the order in which they were counted; and each
      consumer takes the one counted last. */
  lemma LastInFirstOut(s: State, ts: seq<nat>)
    requires Initial(s) && CanRun(s, ts)
    ensures var s1 := Run(s, ts); var stack := StackOf(s, ts, []);
      && 0 <= s1.count <= |s1.buffer|
      && ((forall t: nat :: !IsInside(s1.ws, t)) ==> s1.buffer[..s1.count] == stack)
      && (forall t: nat :: CanStep(s1, t) && Taking(s1.ws, t) ==>
            stack != [] && Step(s1, t).consumed == s1.consumed + multiset{stack[|stack| - 1]})
      && (forall t: nat :: CanStep(s1, t) && !Taking(s1.ws, t) ==> Step(s1, t).consumed == s1.consumed)
  {
    hide Step;
    hide Queues;
    hide Tokens;
    hide Contents;
    hide CanRun;
    hide Run;
    hide StackOf;
    InitialInv(s);
    NobodyTakes(s);
    StackRun(s, ts, []);
    var s1 := Run(s, ts);
    var stack := StackOf(s, ts, []);
    forall t: nat | CanStep(s1, t)
      ensures if Taking(s1.ws, t)
        then stack != [] && Step(s1, t).consumed == s1.consumed + multiset{stack[|stack| - 1]}
        else Step(s1, t).consumed == s1.consumed
    {
      StackStep(s1, t, stack);
    }
    if forall t: nat :: !IsInside(s1.ws, t) {
      forall t: nat
        ensures !Taking(s1.ws, t)
      {
        assert !IsInside(s1.ws, t);
      }
    }
  }

  lemma NobodyTakes(s: State)
    requires Initial(s)
    ensures Stacked(s, [])
  {
    assert s.buffer[..0] == [];
  }

  // ---- The demo itself -----------------------------------------------------------------

  /** The items of a producer are id * 100, id * 100 + 1, and so on, once each. */
  lemma {:induction false} ItemsExactly(id: int, n: nat)
    ensures forall v: int :: Items(id, n)[v] == if id * 100 <= v < id * 100 + n then 1 else 0
  {
    if n > 0 {
      ItemsExactly(id, n - 1);
    }
  }

  /** What a finished thread has produced. */
  lemma {:induction false} ProducedQuotas(ws: seq<Worker>, v: int)
    requires forall t :: 0 <= t < |ws| ==> ws[t].i == ws[t].quota && ws[t].at == 0
    ensures Produced(ws)[v] == Sum(ws, Makes(v))
  {
    if ws != [] {
      ProducedQuotas(ws[1..], v);
      if ws[0].role.Producer? {
        ItemsExactly(ws[0].role.id, ws[0].quota);
      }
    }
  }

  function Makes(v: int): Worker -> int {
    (w: Worker) => if w.role.Producer? && w.role.id * 100 <= v < w.role.id * 100 + w.quota then 1 else 0
  }

  /** cmd_semdemo: two producers of five items, one consumer of ten, a buffer for four. */
  predicate SemDemo(s: State) {
    && Initial(s) && |s.buffer| == 4 && |s.ws| == 3
    && s.ws[0].role == Producer(1) && s.ws[0].quota == 5
    && s.ws[1].role == Producer(2) && s.ws[1].quota == 5
    && s.ws[2].role == Consumer && s.ws[2].quota == 10
  }

  /** In every interleaving the demo can go on until its 140th statement, and then the consumer has
      taken 100 to 104 and 200 to 204, once each, and the buffer is empty. */
  lemma SemDemoEnds(s: State, ts: seq<nat>)
    requires SemDemo(s) && CanRun(s, ts)
    ensures var s1 := Run(s, ts);
      && ((forall t: nat :: !CanStep(s1, t)) <==> |ts| == 140)
      && (|ts| == 140 ==>
            s1.count == 0 && s1.consumed == multiset{100, 101, 102, 103, 104, 200, 201, 202, 203, 204})
  {
    hide Initial;
    hide CanRun;
    hide Run;
    hide Produced;
    hide Sum;
    hide CanStep;
    DemoSums(s);
    AllConsumed(s, ts);
    if |ts| == 140 {
      SameThreads(s, ts);
      FinishedAtStart(s, ts);
      DemoItems(Run(s, ts).ws);
    }
  }

  lemma DemoItems(ws: seq<Worker>)
    requires |ws| == 3 && forall t :: 0 <= t < |ws| ==> ws[t].i == ws[t].quota && ws[t].at == 0
    requires ws[0].role == Producer(1) && ws[0].quota == 5 && ws[1].role == Producer(2) && ws[1].quota == 5
    requires ws[2].role == Consumer
    ensures Produced(ws) == multiset{100, 101, 102, 103, 104, 200, 201, 202, 203, 204}
  {
    hide Produced;
    hide Sum;
    var all := multiset{100, 101, 102, 103, 104, 200, 201, 202, 203, 204};
    forall v: int
      ensures Produced(ws)[v] == all[v]
    {
      ProducedQuotas(ws, v);
      SumThree(ws, Makes(v));
      assert all[v] == if 100 <= v < 105 || 200 <= v < 205 then 1 else 0;
    }
  }

  lemma SumThree(ws: seq<Worker>, f: Worker -> int)
    requires |ws| == 3
    ensures Sum(ws, f) == f(ws[0]) + f(ws[1]) + f(ws[2])
  {
    assert Sum(ws, f) == f(ws[0]) + Sum(ws[1..], f);
    assert Sum(ws[1..], f) == f(ws[1]) + Sum(ws[1..][1..], f);
    assert Sum(ws[1..][1..], f) == f(ws[2]) + Sum(ws[1..][1..][1..], f);
  }

  lemma DemoSums(s: State)
    requires SemDemo(s)
    ensures Sum(s.ws, NetQuota()) == 0 && Sum(s.ws, StepsLeft()) == 140
  {
    SumThree(s.ws, NetQuota());
    SumThree(s.ws, StepsLeft());
  }

  /** Nobody's role or quota changes. */
  lemma {:induction false} SameThreads(s: State, ts: seq<nat>)
    requires CanRun(s, ts)
    ensures |Run(s, ts).ws| == |s.ws|
    ensures forall u :: 0 <= u < |s.ws| ==>
      Run(s, ts).ws[u].role == s.ws[u].role && Run(s, ts).ws[u].quota == s.ws[u].quota
    decreases |ts|
  {
    hide Step;
    if ts != [] {
      var s1 := Step(s, ts[0]);
      forall u | 0 <= u < |s.ws|
        ensures |s1.ws| == |s.ws| && s1.ws[u].role == s.ws[u].role && s1.ws[u].quota == s.ws[u].quota
      {
        SameThread(s, ts[0], u);
      }
      SameThreads(s1, ts[1..]);
    }
  }

  lemma SameThread(s: State, t: nat, u: nat)
    requires CanStep(s, t) && u < |s.ws|
    ensures |Step(s, t).ws| == |s.ws|
    ensures Step(s, t).ws[u].role == s.ws[u].role && Step(s, t).ws[u].quota == s.ws[u].quota
  {
    hide Wait;
    hide Signal;
    hide Store;
    hide Load;
    StepForward(s, t, u);
  }

  lemma FinishedAtStart(s: State, ts: seq<nat>)
    requires Initial(s) && CanRun(s, ts) && Finished(Run(s, ts))
    ensures forall t :: 0 <= t < |Run(s, ts).ws| ==> Run(s, ts).ws[t].at == 0
  {
    InitialInv(s);
    RunInv(s, ts);
    var s1 := Run(s, ts);
    forall t | 0 <= t < |s1.ws|
      ensures s1.ws[t].at == 0
    {
      assert WorkerOk(s1.ws[t]);
    }
  }
}
