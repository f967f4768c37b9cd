/** race_thread of kernel/kernel.c: the same increments without the mutex. */
module Race {
  datatype RacePc = Reading(i: nat) | Writing(i: nat, temp: nat) | Ended

  datatype RaceState = RaceState(total: nat, pcs: seq<RacePc>)

  function Start(i: nat, rounds: nat): RacePc {
    if i < rounds then Reading(i) else Ended
  }

  predicate InitialRace(s: RaceState, rounds: nat) {
    s.total == 0 && forall t :: 0 <= t < |s.pcs| ==> s.pcs[t] == Start(0, rounds)
  }

  predicate CanMove(s: RaceState, t: nat) {
    t < |s.pcs| && s.pcs[t] != Ended
  }

  /** A read, or a write of the value read plus one; a switch may fall between the two. */
  function Move(s: RaceState, t: nat, rounds: nat): RaceState
    requires CanMove(s, t)
  {
    match s.pcs[t]
    case Reading(i) => s.(pcs := s.pcs[t := Writing(i, s.total)])
    case Writing(i, temp) => s.(total := temp + 1, pcs := s.pcs[t := Start(i + 1, rounds)])
  }

  function Writes(pc: RacePc, rounds: nat): nat {
    if pc.Ended? then rounds else pc.i
  }

  function TotalWrites(pcs: seq<RacePc>, rounds: nat): nat {
    if pcs == [] then 0 else Writes(pcs[0], rounds) + TotalWrites(pcs[1..], rounds)
  }

  lemma {:induction false} WritesUpdate(pcs: seq<RacePc>, t: nat, pc: RacePc, rounds: nat)
    requires t < |pcs|
    ensures TotalWrites(pcs[t := pc], rounds) == TotalWrites(pcs, rounds) - Writes(pcs[t], rounds) + Writes(pc, rounds)
  {
    if t == 0 {
      assert pcs[0 := pc][1..] == pcs[1..];
    } else {
      WritesUpdate(pcs[1..], t - 1, pc, rounds);
      assert pcs[t := pc][1..] == pcs[1..][t - 1 := pc];
    }
  }

  lemma {:induction false} WritesConst(pcs: seq<RacePc>, rounds: nat, v: nat)
    requires forall t :: 0 <= t < |pcs| ==> Writes(pcs[t], rounds) == v
    ensures TotalWrites(pcs, rounds) == |pcs| * v
  {
    if pcs != [] {
      WritesConst(pcs[1..], rounds, v);
    }
  }

  /** A thread in its first or second iteration. */
  predicate Early(pc: RacePc) {
    !pc.Ended? && pc.i <= 1
  }

  /** Nothing exceeds the writes made; a thread past its first write has seen a positive counter;
      and a counter below 2 was last written by a thread still in its second iteration. */
  predicate Inv2(s: RaceState, rounds: nat) {
    && (forall t :: 0 <= t < |s.pcs| && !s.pcs[t].Ended? ==> s.pcs[t].i < rounds)
    && s.total <= TotalWrites(s.pcs, rounds)
    && (forall t :: 0 <= t < |s.pcs| && s.pcs[t].Writing? ==> s.pcs[t].temp <= TotalWrites(s.pcs, rounds))
    && (s.total == 0 ==> forall t :: 0 <= t < |s.pcs| ==> Writes(s.pcs[t], rounds) == 0)
    && (forall t :: 0 <= t < |s.pcs| && s.pcs[t].Writing? && s.pcs[t].i >= 1 ==> s.pcs[t].temp >= 1)
    && (s.total >= 2 || s.pcs == [] || exists t :: 0 <= t < |s.pcs| && Early(s.pcs[t]))
  }

  lemma MoveInv(s: RaceState, t: nat, rounds: nat)
    requires Inv2(s, rounds) && CanMove(s, t) && rounds >= 2
    ensures Inv2(Move(s, t, rounds), rounds)
  {
    var s1 := Move(s, t, rounds);
    WritesUpdate(s.pcs, t, s1.pcs[t], rounds);
    if s1.total < 2 {
      if s.pcs[t].Writing? {
        assert Early(s1.pcs[t]);
      } else {
        var u :| 0 <= u < |s.pcs| && Early(s.pcs[u]);
        assert Early(s1.pcs[u]);
      }
    }
  }

  predicate CanRace(s: RaceState, ts: seq<nat>, rounds: nat)
    decreases |ts|
  {
    ts == [] || (CanMove(s, ts[0]) && CanRace(Move(s, ts[0], rounds), ts[1..], rounds))
  }

  function RunRace(s: RaceState, ts: seq<nat>, rounds: nat): RaceState
    requires CanRace(s, ts, rounds)
    decreases |ts|
  {
    if ts == [] then s else RunRace(Move(s, ts[0], rounds), ts[1..], rounds)
  }

  predicate Over(s: RaceState) {
    forall t :: 0 <= t < |s.pcs| ==> s.pcs[t] == Ended
  }

  lemma {:induction false} RaceInv(s: RaceState, ts: seq<nat>, rounds: nat)
    requires Inv2(s, rounds) && CanRace(s, ts, rounds) && rounds >= 2
    ensures Inv2(RunRace(s, ts, rounds), rounds) && |RunRace(s, ts, rounds).pcs| == |s.pcs|
    decreases |ts|
  {
    hide Inv2;
    if ts != [] {
      MoveInv(s, ts[0], rounds);
      RaceInv(Move(s, ts[0], rounds), ts[1..], rounds);
    }
  }

  /** Without the mutex increments are lost, but not beyond measure: every finished run of at least
      one thread with at least two iterations ends between 2 and threads * iterations. */
  lemma RaceBounds(s: RaceState, ts: seq<nat>, rounds: nat)
    requires InitialRace(s, rounds) && s.pcs != [] && rounds >= 2
    requires CanRace(s, ts, rounds) && Over(RunRace(s, ts, rounds))
    ensures 2 <= RunRace(s, ts, rounds).total <= |s.pcs| * rounds
  {
    WritesConst(s.pcs, rounds, 0);
    assert Early(s.pcs[0]);
    RaceInv(s, ts, rounds);
    WritesConst(RunRace(s, ts, rounds).pcs, rounds, rounds);
  }

  // ---- Both bounds are reached ---------------------------------------------------------

  lemma {:induction false} RunTwo(s: RaceState, a: seq<nat>, b: seq<nat>, rounds: nat)
    requires CanRace(s, a, rounds) && CanRace(RunRace(s, a, rounds), b, rounds)
    ensures CanRace(s, a + b, rounds) && RunRace(s, a + b, rounds) == RunRace(RunRace(s, a, rounds), b, rounds)
    decreases |a|
  {
    if a == [] {
      assert a + b == b;
    } else {
      assert (a + b)[0] == a[0] && (a + b)[1..] == a[1..] + b;
      RunTwo(Move(s, a[0], rounds), a[1..], b, rounds);
    }
  }

  function Times(t: nat, k: nat): seq<nat> {
    seq(2 * k, _ => t)
  }

  /** Running alone for k iterations a thread adds exactly k. */
  lemma {:induction false} Solo(s: RaceState, t: nat, i: nat, k: nat, rounds: nat)
    requires t < |s.pcs| && i + k <= rounds && s.pcs[t] == Start(i, rounds)
    ensures CanRace(s, Times(t, k), rounds)
    ensures RunRace(s, Times(t, k), rounds) == RaceState(s.total + k, s.pcs[t := Start(i + k, rounds)])
    decreases k
  {
    if k == 0 {
      assert s.pcs[t := s.pcs[t]] == s.pcs;
    } else {
      var s1 := Move(s, t, rounds);
      var s2 := Move(s1, t, rounds);
      assert s2 == RaceState(s.total + 1, s.pcs[t := Start(i + 1, rounds)]);
      Solo(s2, t, i + 1, k - 1, rounds);
      assert s2.pcs[t := Start(i + k, rounds)] == s.pcs[t := Start(i + k, rounds)];
      assert Times(t, k)[0] == t && Times(t, k)[1..][0] == t && Times(t, k)[1..][1..] == Times(t, k - 1);
    }
  }

  /** One after the other, from thread `from` on. */
  lemma {:induction false} OneByOne(s: RaceState, from: nat, rounds: nat) returns (ts: seq<nat>)
    requires from <= |s.pcs| && forall t :: from <= t < |s.pcs| ==> s.pcs[t] == Start(0, rounds)
    ensures CanRace(s, ts, rounds)
    ensures var s1 := RunRace(s, ts, rounds);
      && s1.total == s.total + (|s.pcs| - from) * rounds && |s1.pcs| == |s.pcs|
      && forall t :: 0 <= t < |s.pcs| ==> s1.pcs[t] == if t < from then s.pcs[t] else Ended
    decreases |s.pcs| - from
  {
    if from == |s.pcs| {
      ts := [];
    } else {
      Solo(s, from, 0, rounds, rounds);
      var s1 := RunRace(s, Times(from, rounds), rounds);
      var rest := OneByOne(s1, from + 1, rounds);
      RunTwo(s, Times(from, rounds), rest, rounds);
      ts := Times(from, rounds) + rest;
      assert s1.total + (|s.pcs| - from - 1) * rounds == s.total + (|s.pcs| - from) * rounds;
    }
  }

  lemma AllCounted(s: RaceState, rounds: nat) returns (ts: seq<nat>)
    requires InitialRace(s, rounds)
    ensures CanRace(s, ts, rounds) && Over(RunRace(s, ts, rounds)) && RunRace(s, ts, rounds).total == |s.pcs| * rounds
  {
    ts := OneByOne(s, 0, rounds);
  }

  /** The worst schedule: thread 0 reads 0; the rest finish, thread 1 all but its last iteration;
      thread 0 writes 1; thread 1 reads it; thread 0 finishes; thread 1 writes 2. */
  lemma OnlyTwoCounted(s: RaceState, rounds: nat) returns (ts: seq<nat>)
    requires InitialRace(s, rounds) && |s.pcs| >= 2 && rounds >= 2
    ensures CanRace(s, ts, rounds) && Over(RunRace(s, ts, rounds)) && RunRace(s, ts, rounds).total == 2
  {
    var s1 := RunRace(s, [0], rounds);
    assert s1 == Move(s, 0, rounds);
    var others := OneByOne(s1, 2, rounds);
    var s2 := RunRace(s1, others, rounds);
    Solo(s2, 1, 0, rounds - 1, rounds);
    var s3 := RunRace(s2, Times(1, rounds - 1), rounds);
    assert CanRace(s3, [0, 1], rounds) by { assert [0, 1][1..] == [1]; }
    var s4 := RunRace(s3, [0, 1], rounds);
    assert s4 == RaceState(1, s3.pcs[0 := Reading(1)][1 := Writing(rounds - 1, 1)]) by {
      assert [0, 1][1..] == [1];
      assert s4 == RunRace(Move(s3, 0, rounds), [1], rounds) == Move(Move(s3, 0, rounds), 1, rounds);
    }
    Solo(s4, 0, 1, rounds - 1, rounds);
    var s5 := RunRace(s4, Times(0, rounds - 1), rounds);
    assert RunRace(s5, [1], rounds) == Move(s5, 1, rounds);
    RunTwo(s4, Times(0, rounds - 1), [1], rounds);
    RunTwo(s3, [0, 1], Times(0, rounds - 1) + [1], rounds);
    RunTwo(s2, Times(1, rounds - 1), [0, 1] + (Times(0, rounds - 1) + [1]), rounds);
    RunTwo(s1, others, Times(1, rounds - 1) + ([0, 1] + (Times(0, rounds - 1) + [1])), rounds);
    ts := [0] + (others + (Times(1, rounds - 1) + ([0, 1] + (Times(0, rounds - 1) + [1]))));
    RunTwo(s, [0], ts[1..], rounds);
    assert ts == [0] + ts[1..];
  }

  /** So the bounds are exact: some schedule loses nothing, and some schedule leaves 2. */
  lemma RaceBoundsReached(s: RaceState, rounds: nat)
    requires InitialRace(s, rounds) && |s.pcs| >= 2 && rounds >= 2
    ensures exists ts: seq<nat> ::
      CanRace(s, ts, rounds) && Over(RunRace(s, ts, rounds)) && RunRace(s, ts, rounds).total == |s.pcs| * rounds
    ensures exists ts: seq<nat> ::
      CanRace(s, ts, rounds) && Over(RunRace(s, ts, rounds)) && RunRace(s, ts, rounds).total == 2
  {
    var all := AllCounted(s, rounds);
    var two := OnlyTwoCounted(s, rounds);
  }
}
