/** The physical frame allocator, kernel/pmm.c: one bit per 4 KB frame, set while the frame is
    in use or was never usable, with two running counters. */
module Pmm {
  import opened Bits

  const FRAME_SIZE := 4096
  const MAX_FRAMES := 32768
  const LOW_FRAMES := 256 // the first megabyte
  const FOUR_GB := 0x1_0000_0000

  const U64 := 0x1_0000_0000_0000_0000

  type u64 = x: nat | x < U64

  /** One entry of the memory map of ACPI 6.4 section 15.1. */
  datatype E820Entry = E820Entry(base: u64, length: u64, kind: nat)

  /** The allocator's whole state: the bitmap and the two counters. */
  datatype Frames = Frames(bits: seq<bool>, total: nat, used: nat)

  /** The end of the entry as the kernel computes it, in 64 bits. */
  function End(e: E820Entry): nat {
    (e.base + e.length) % U64
  }

  predicate Holds(e: E820Entry, f: nat) {
    e.kind == 1 && e.base <= f * FRAME_SIZE && (f + 1) * FRAME_SIZE <= End(e)
  }

  /** Rounding the start up and the end down gives exactly the frames held. */
  lemma RoundedRange(e: E820Entry, first: nat, last: nat)
    requires e.kind == 1 && e.base < FOUR_GB && first == (e.base + FRAME_SIZE - 1) / FRAME_SIZE
    requires last == Lesser(Lesser(End(e), FOUR_GB) / FRAME_SIZE, MAX_FRAMES)
    ensures forall f :: 0 <= f < MAX_FRAMES ==> (Holds(e, f) <==> first <= f < last)
  {
  }

  function Lesser(a: nat, b: nat): nat {
    if b < a then b else a
  }

  /** Reserved entries and those above 4 GB hold no frame of the bitmap. */
  lemma NothingHeld(e: E820Entry)
    ensures e.kind != 1 || e.base >= FOUR_GB ==> forall f :: 0 <= f < MAX_FRAMES ==> !Holds(e, f)
  {
  }

  /** Frame f lies wholly inside the entry, wherever that ends. */
  predicate Contains(e: E820Entry, f: nat) {
    e.kind == 1 && e.base <= f * FRAME_SIZE && (f + 1) * FRAME_SIZE <= e.base + e.length
  }

  /** The 64-bit sum is right for the frames of the bitmap exactly when the entry is not usable, its
      end fits 64 bits, or it starts above the last frame; a usable entry that wraps holds nothing. */
  lemma WrapExactly(e: E820Entry)
    ensures (forall f :: 0 <= f < MAX_FRAMES ==> (Holds(e, f) <==> Contains(e, f))) <==>
      e.kind != 1 || e.base + e.length < U64 || e.base > (MAX_FRAMES - 1) * FRAME_SIZE
    ensures e.base + e.length >= U64 ==> forall f :: 0 <= f < MAX_FRAMES ==> !Holds(e, f)
  {
    if e.base + e.length < U64 {
      assert End(e) == e.base + e.length;
    } else {
      assert End(e) == e.base + e.length - U64 < e.base;
      assert Contains(e, MAX_FRAMES - 1) <==> e.kind == 1 && e.base <= (MAX_FRAMES - 1) * FRAME_SIZE;
    }
  }

  /** Frame f may be handed out: above the first megabyte and wholly inside a usable entry, as far
      as 64 bits tell. */
  predicate Usable(map820: seq<E820Entry>, f: nat) {
    LOW_FRAMES <= f < MAX_FRAMES && exists i :: 0 <= i < |map820| && Holds(map820[i], f)
  }

  /** When no usable entry wraps, that is: at or above 256 and wholly inside a usable entry. */
  lemma UsableContained(map820: seq<E820Entry>, f: nat)
    requires f < MAX_FRAMES
    requires forall i :: 0 <= i < |map820| && map820[i].kind == 1 ==> map820[i].base + map820[i].length < U64
    ensures Usable(map820, f) <==>
      LOW_FRAMES <= f && exists i :: 0 <= i < |map820| && Contains(map820[i], f)
  {
    forall i | 0 <= i < |map820|
      ensures Holds(map820[i], f) <==> Contains(map820[i], f)
    {
      WrapExactly(map820[i]);
    }
  }

  function UsableMarks(map820: seq<E820Entry>): (marks: seq<bool>)
    ensures |marks| == MAX_FRAMES
    ensures forall f :: 0 <= f < MAX_FRAMES ==> marks[f] == Usable(map820, f)
  {
    seq(MAX_FRAMES, f requires 0 <= f < MAX_FRAMES => Usable(map820, f))
  }

  function Alloc(p: Frames): (Frames, nat) {
    var f := FirstClear(p.bits, 0);
    if f < |p.bits| then (Frames(p.bits[f := true], p.total, p.used + 1), f * FRAME_SIZE) else (p, 0)
  }

  predicate Rejected(paddr: nat) {
    paddr == 0 || paddr % FRAME_SIZE != 0 || paddr / FRAME_SIZE >= MAX_FRAMES
  }

  function Free(p: Frames, paddr: nat): Frames
    requires |p.bits| == MAX_FRAMES
  {
    var f := paddr / FRAME_SIZE;
    if Rejected(paddr) || !p.bits[f] then p
    else Frames(p.bits[f := false], p.total, if p.used > 0 then p.used - 1 else 0)
  }

  /** Only usable frames are ever clear, and the counters agree with the bitmap. */
  ghost predicate Inv(p: Frames, usable: seq<bool>) {
    && |p.bits| == |usable| == MAX_FRAMES
    && (forall f :: 0 <= f < LOW_FRAMES ==> !usable[f])
    && (forall f :: 0 <= f < MAX_FRAMES && !p.bits[f] ==> usable[f])
    && p.total == CountSet(usable)
    && p.total - p.used == CountClear(p.bits)
  }

  /** The state `pmm_init` must reach from this memory map. */
  ghost predicate Initial(p: Frames, map820: seq<E820Entry>) {
    && |p.bits| == MAX_FRAMES
    && (forall f :: 0 <= f < MAX_FRAMES ==> (!p.bits[f] <==> Usable(map820, f)))
    && p.total == CountClear(p.bits)
    && p.used == 0
  }

  lemma {:induction false} CountClearIsMarks(bits: seq<bool>, marks: seq<bool>)
    requires |bits| == |marks|
    requires forall i :: 0 <= i < |bits| ==> bits[i] == !marks[i]
    ensures CountClear(bits) == CountSet(marks)
  {
    if bits != [] {
      CountClearIsMarks(bits[..|bits| - 1], marks[..|bits| - 1]);
    }
  }

  lemma InitialInv(p: Frames, map820: seq<E820Entry>)
    requires Initial(p, map820)
    ensures Inv(p, UsableMarks(map820))
  {
    CountClearIsMarks(p.bits, UsableMarks(map820));
  }

  /** What start-up makes of the memory map: 128 MB in frames of 4 KB, clear exactly for those above
      the first megabyte that lie wholly inside an entry of type 1. */
  lemma InitialFrames(p: Frames, map820: seq<E820Entry>)
    requires Initial(p, map820)
    ensures |p.bits| == 32768 && p.used == 0 && p.total == CountClear(p.bits)
    ensures forall f :: 0 <= f < 32768 ==>
      (!p.bits[f] <==>
        f >= 256 && exists i ::
          && 0 <= i < |map820| && map820[i].kind == 1 && map820[i].base <= 4096 * f
          && 4096 * f + 4096 <= (map820[i].base + map820[i].length) % 0x1_0000_0000_0000_0000)
  {
    forall f, i | 0 <= f < 32768 && 0 <= i < |map820|
      ensures Holds(map820[i], f) <==>
        && map820[i].kind == 1 && map820[i].base <= 4096 * f
        && 4096 * f + 4096 <= (map820[i].base + map820[i].length) % 0x1_0000_0000_0000_0000
    {
    }
  }

  /** Freeing address 0, a misaligned address, one from 128 MB on, or a frame not in use changes
      nothing; otherwise the frame is clear again and the counter goes down, not below 0. */
  lemma FreeExactly(p: Frames, paddr: nat)
    requires |p.bits| == 32768
    ensures paddr == 0 || paddr % 4096 != 0 || paddr >= 0x800_0000 ==> Free(p, paddr) == p
    ensures paddr != 0 && paddr % 4096 == 0 && paddr < 0x800_0000 ==>
      var f := paddr / 4096;
      Free(p, paddr) == if p.bits[f] then Frames(p.bits[f := false], p.total, if p.used == 0 then 0 else p.used - 1) else p
  {
  }

  /** Allocation hands out the lowest free frame, and address 0 exactly when none is free. */
  lemma AllocLowest(p: Frames, usable: seq<bool>)
    requires Inv(p, usable)
    ensures Inv(Alloc(p).0, usable)
    ensures Alloc(p).1 == 0 <==> p.used == p.total
    ensures Alloc(p).1 == 0 ==> Alloc(p).0 == p && forall f :: 0 <= f < MAX_FRAMES ==> p.bits[f]
    ensures Alloc(p).1 != 0 ==> 0x10_0000 <= Alloc(p).1 <= 0x7FF_F000 && Alloc(p).1 % 4096 == 0
    ensures Alloc(p).1 != 0 ==>
      var f := Alloc(p).1 / FRAME_SIZE;
      && Alloc(p).1 == f * FRAME_SIZE && LOW_FRAMES <= f < MAX_FRAMES
      && !p.bits[f] && (forall g :: 0 <= g < f ==> p.bits[g])
      && Alloc(p).0 == Frames(p.bits[f := true], p.total, p.used + 1)
  {
    var f := FirstClear(p.bits, 0);
    if f < MAX_FRAMES {
      CountSetUpdate(p.bits, f, true);
    } else {
      CountSetAll(p.bits);
    }
  }

  /** Freeing keeps the bookkeeping exactly when the address is rejected or names a usable
      frame: releasing a reserved frame would put it into circulation. */
  lemma FreeKeepsExactly(p: Frames, usable: seq<bool>, paddr: nat)
    requires Inv(p, usable)
    ensures Inv(Free(p, paddr), usable) <==> Rejected(paddr) || usable[paddr / FRAME_SIZE]
  {
    var f := paddr / FRAME_SIZE;
    if !Rejected(paddr) {
      CountSetUpdate(p.bits, f, false);
      if p.bits[f] && usable[f] {
        CountClearBelow(p.bits, usable);
      }
      assert !Free(p, paddr).bits[f];
    }
  }

  // ---- Whole runs ----------------------------------------------------------------------

  datatype Request = Acquire | Release(paddr: nat)

  /** The allocator together with the frames its clients hold. */
  datatype World = World(frames: Frames, held: set<nat>)

  /** Clients release only frames they hold; bad addresses may be passed at any time. */
  predicate Allowed(w: World, r: Request) {
    r.Release? && !Rejected(r.paddr) ==> r.paddr / FRAME_SIZE in w.held
  }

  function Serve(w: World, r: Request): World
    requires |w.frames.bits| == MAX_FRAMES
  {
    match r
    case Acquire =>
      var (p, paddr) := Alloc(w.frames);
      World(p, if paddr == 0 then w.held else w.held + {paddr / FRAME_SIZE})
    case Release(paddr) =>
      World(Free(w.frames, paddr), if Rejected(paddr) then w.held else w.held - {paddr / FRAME_SIZE})
  }

  ghost predicate WorldInv(w: World, usable: seq<bool>) {
    && Inv(w.frames, usable)
    && (forall f: nat :: f in w.held <==> f < MAX_FRAMES && usable[f] && w.frames.bits[f])
  }

  ghost predicate Run(ws: seq<World>, rs: seq<Request>) {
    && |ws| == |rs| + 1
    && (forall i :: 0 <= i < |rs| ==> |ws[i].frames.bits| == MAX_FRAMES)
    && (forall i :: 0 <= i < |rs| ==> Allowed(ws[i], rs[i]) && ws[i + 1] == Serve(ws[i], rs[i]))
  }

  lemma ServeInv(w: World, r: Request, usable: seq<bool>)
    requires WorldInv(w, usable) && Allowed(w, r)
    ensures WorldInv(Serve(w, r), usable)
    ensures r.Acquire? && Alloc(w.frames).1 != 0 ==> Alloc(w.frames).1 / FRAME_SIZE !in w.held
  {
    AllocLowest(w.frames, usable);
    if r.Release? {
      FreeKeepsExactly(w.frames, usable, r.paddr);
    }
  }

  /** Over every run from boot: what is held is exactly what is marked used, the counters
      differ by the number of clear bits, and no frame is handed to a second holder. */
  lemma {:induction false} EveryRun(ws: seq<World>, rs: seq<Request>, map820: seq<E820Entry>, n: nat)
    requires Run(ws, rs) && n <= |rs|
    requires Initial(ws[0].frames, map820) && ws[0].held == {}
    ensures WorldInv(ws[n], UsableMarks(map820))
    ensures ws[n].frames.total - ws[n].frames.used == CountClear(ws[n].frames.bits)
    ensures n < |rs| && rs[n].Acquire? && Alloc(ws[n].frames).1 != 0 ==>
      Alloc(ws[n].frames).1 / FRAME_SIZE !in ws[n].held
  {
    if n == 0 {
      InitialInv(ws[0].frames, map820);
    } else {
      EveryRun(ws, rs, map820, n - 1);
      ServeInv(ws[n - 1], rs[n - 1], UsableMarks(map820));
    }
    if n < |rs| {
      ServeInv(ws[n], rs[n], UsableMarks(map820));
    }
  }

  // ---- Allocating and giving back ------------------------------------------------------

  /** Up to k allocations, stopping at the first failure, as the self-test does. */
  function AllocMany(p: Frames, k: nat): (r: (Frames, seq<nat>))
    ensures |r.1| <= k && |r.0.bits| == |p.bits|
    decreases k
  {
    if k == 0 then (p, [])
    else
      var (q, out) := AllocMany(p, k - 1);
      var (q', paddr) := Alloc(q);
      if |out| < k - 1 || paddr == 0 then (q, out) else (q', out + [paddr])
  }

  function FreeMany(p: Frames, paddrs: seq<nat>): Frames
    requires |p.bits| == MAX_FRAMES
    decreases |paddrs|
  {
    if paddrs == [] then p else FreeMany(Free(p, paddrs[0]), paddrs[1..])
  }

  /** p is q with exactly the frames of `out` taken. */
  ghost predicate Taken(p: Frames, q: Frames, out: seq<nat>) {
    && |p.bits| == |q.bits| == MAX_FRAMES
    && p.total == q.total && p.used == q.used + |out|
    && (forall i :: 0 <= i < |out| ==> !Rejected(out[i]) && !q.bits[out[i] / FRAME_SIZE])
    && (forall i, j :: 0 <= i < j < |out| ==> out[i] != out[j])
    && (forall f: nat :: f < MAX_FRAMES ==> (p.bits[f] <==> q.bits[f] || f * FRAME_SIZE in out))
  }

  /** One more allocation on top of `out`. */
  lemma TakenAlloc(p: Frames, q: Frames, usable: seq<bool>, out: seq<nat>)
    requires Inv(p, usable) && Taken(p, q, out) && Alloc(p).1 != 0
    ensures Taken(Alloc(p).0, q, out + [Alloc(p).1])
  {
    AllocLowest(p, usable);
    var (p', paddr) := Alloc(p);
    var all := out + [paddr];
    forall f: nat | f < MAX_FRAMES
      ensures p'.bits[f] <==> q.bits[f] || f * FRAME_SIZE in all
    {
      assert f * FRAME_SIZE in all <==> f * FRAME_SIZE == paddr || f * FRAME_SIZE in out;
    }
    forall i | 0 <= i < |out|
      ensures out[i] != paddr
    {
      assert out[i] / FRAME_SIZE * FRAME_SIZE in out;
    }
  }

  /** The batch stops short only when every frame is taken. */
  lemma {:induction false} AllocManyTaken(p: Frames, usable: seq<bool>, k: nat)
    requires Inv(p, usable)
    ensures var (q, out) := AllocMany(p, k);
      && Inv(q, usable) && Taken(q, p, out)
      && |out| == if p.total - p.used < k then p.total - p.used else k
    decreases k
  {
    if k == 0 {
      assert Taken(p, p, []);
    } else {
      AllocManyTaken(p, usable, k - 1);
      var (q, out) := AllocMany(p, k - 1);
      AllocLowest(q, usable);
      if |out| == k - 1 && Alloc(q).1 != 0 {
        TakenAlloc(q, p, usable, out);
      }
    }
  }

  lemma {:induction false} FreeManyRestores(p: Frames, q: Frames, out: seq<nat>)
    requires Taken(p, q, out)
    ensures FreeMany(p, out) == q
    decreases |out|
  {
    if out == [] {
      assert p.bits == q.bits;
    } else {
      var f := out[0] / FRAME_SIZE;
      assert out[0] == f * FRAME_SIZE && out[0] in out;
      var p' := Free(p, out[0]);
      forall g: nat | g < MAX_FRAMES
        ensures p'.bits[g] <==> q.bits[g] || g * FRAME_SIZE in out[1..]
      {
        assert out == [out[0]] + out[1..];
        if g * FRAME_SIZE in out[1..] {
          var j :| 0 <= j < |out[1..]| && out[1..][j] == g * FRAME_SIZE;
          assert out[j + 1] != out[0];
        }
      }
      FreeManyRestores(p', q, out[1..]);
    }
  }

  lemma PermutationTaken(p: Frames, q: Frames, out: seq<nat>, order: seq<nat>)
    requires Taken(p, q, out)
    requires multiset(order) == multiset(out)
    ensures Taken(p, q, order)
  {
    assert |order| == |multiset(order)| == |multiset(out)| == |out|;
    forall x: nat
      ensures x in order <==> x in out
    {
      assert x in order <==> x in multiset(order);
      assert x in out <==> x in multiset(out);
    }
    forall i, j | 0 <= i < j < |order|
      ensures order[i] != order[j]
    {
      if order[i] == order[j] {
        CountTwice(order, i, j);
        CountOnce(out, order[i]);
      }
    }
    forall i | 0 <= i < |order|
      ensures !Rejected(order[i]) && !q.bits[order[i] / FRAME_SIZE]
    {
      assert order[i] in out;
    }
  }

  lemma CountTwice(s: seq<nat>, i: nat, j: nat)
    requires i < j < |s| && s[i] == s[j]
    ensures multiset(s)[s[i]] >= 2
  {
    assert s == s[..j] + s[j..];
    assert s[..j][i] == s[i] && s[j..][0] == s[i];
    assert s[i] in multiset(s[..j]) && s[i] in multiset(s[j..]);
  }

  lemma {:induction false} CountOnce(s: seq<nat>, x: nat)
    requires forall i, j :: 0 <= i < j < |s| ==> s[i] != s[j]
    ensures multiset(s)[x] <= 1
  {
    if s != [] {
      assert s == [s[0]] + s[1..];
      CountOnce(s[1..], x);
      if x == s[0] {
        assert x !in s[1..];
      }
    }
  }

  /** Allocating any number of frames and freeing them in any order is the identity. */
  lemma AllocFreeAnyOrder(p: Frames, usable: seq<bool>, k: nat, order: seq<nat>)
    requires Inv(p, usable)
    requires multiset(order) == multiset(AllocMany(p, k).1)
    ensures FreeMany(AllocMany(p, k).0, order) == p
  {
    AllocManyTaken(p, usable, k);
    PermutationTaken(AllocMany(p, k).0, p, AllocMany(p, k).1, order);
    FreeManyRestores(AllocMany(p, k).0, p, order);
  }

  // ---- The allocator itself ------------------------------------------------------------

  class FrameAllocator {
    const bitmap: array<byte>
    var totalFrames: nat
    var usedFrames: nat

    constructor ()
      ensures Valid() && fresh(bitmap)
    {
      bitmap := new byte[MAX_FRAMES / 8];
      totalFrames, usedFrames := 0, 0;
    }

    ghost predicate Valid() reads this {
      bitmap.Length == MAX_FRAMES / 8
    }

    ghost function State(): (p: Frames)
      requires Valid()
      reads this, bitmap
      ensures |p.bits| == MAX_FRAMES
    {
      Frames(Unpack(bitmap[..]), totalFrames, usedFrames)
    }

    method BitmapSet(f: nat)
      requires Valid() && f < MAX_FRAMES
      modifies bitmap
      ensures State() == old(State()).(bits := old(State()).bits[f := true])
    {
      UnpackSet(bitmap[..], f);
      bitmap[f / 8] := SetBit(bitmap[f / 8], f % 8);
      assert bitmap[..] == old(bitmap[..])[f / 8 := SetBit(old(bitmap[f / 8]), f % 8)];
    }

    method BitmapClear(f: nat)
      requires Valid() && f < MAX_FRAMES
      modifies bitmap
      ensures State() == old(State()).(bits := old(State()).bits[f := false])
    {
      UnpackClear(bitmap[..], f);
      bitmap[f / 8] := ClearBit(bitmap[f / 8], f % 8);
      assert bitmap[..] == old(bitmap[..])[f / 8 := ClearBit(old(bitmap[f / 8]), f % 8)];
    }

    method BitmapTest(f: nat) returns (b: bool)
      requires Valid() && f < MAX_FRAMES
      ensures b == State().bits[f]
    {
      b := TestBit(bitmap[f / 8], f % 8);
    }

    /** Builds the bitmap from the firmware's memory map. */
    method Init(map820: seq<E820Entry>)
      requires Valid()
      requires |map820| < 0x1_0000
      modifies this, bitmap
      ensures Valid() && Initial(State(), map820)
    {
      MarkAllUsed();
      var i := 0;
      while i < |map820|
        invariant 0 <= i <= |map820|
        invariant forall f :: 0 <= f < MAX_FRAMES ==>
          (!State().bits[f] <==> exists j :: 0 <= j < i && Holds(map820[j], f))
        invariant totalFrames == CountClear(State().bits)
      {
        MarkEntry(map820[i]);
        i := i + 1;
      }
      ReserveLow();
      usedFrames := 0;
    }

    method MarkAllUsed()
      requires Valid()
      modifies this, bitmap
      ensures forall f :: 0 <= f < MAX_FRAMES ==> State().bits[f]
      ensures totalFrames == CountClear(State().bits) == 0
    {
      var i := 0;
      while i < MAX_FRAMES / 8
        invariant 0 <= i <= MAX_FRAMES / 8
        invariant forall j :: 0 <= j < i ==> bitmap[j] == 0xFF
      {
        bitmap[i] := 0xFF;
        i := i + 1;
      }
      totalFrames, usedFrames := 0, 0;
      forall f | 0 <= f < MAX_FRAMES
        ensures State().bits[f]
      {
        AllOnes(f % 8);
      }
      CountSetAll(State().bits);
    }

    /** Takes the first megabyte back out of the count. */
    method ReserveLow()
      requires Valid()
      requires totalFrames == CountClear(State().bits)
      modifies this`totalFrames, bitmap
      ensures forall f :: 0 <= f < MAX_FRAMES ==> (State().bits[f] <==> f < LOW_FRAMES || old(State().bits)[f])
      ensures totalFrames == CountClear(State().bits)
    {
      var frame := 0;
      while frame < 0x100000 / FRAME_SIZE
        invariant 0 <= frame <= LOW_FRAMES
        invariant forall f :: 0 <= f < MAX_FRAMES ==> (State().bits[f] <==> f < frame || old(State().bits)[f])
        invariant totalFrames == CountClear(State().bits)
      {
        var used := BitmapTest(frame);
        if !used {
          CountSetUpdate(State().bits, frame, true);
          BitmapSet(frame);
          if totalFrames > 0 {
            totalFrames := totalFrames - 1;
          }
        }
        frame := frame + 1;
      }
    }

    /** One pass of the entry loop: clears, and counts once, every frame wholly in the entry. */
    method MarkEntry(e: E820Entry)
      requires Valid()
      requires totalFrames == CountClear(State().bits)
      modifies this`totalFrames, bitmap
      ensures forall f :: 0 <= f < MAX_FRAMES ==>
        (!State().bits[f] <==> !old(State().bits)[f] || Holds(e, f))
      ensures totalFrames == CountClear(State().bits)
    {
      hide Unpack;
      hide Holds;
      NothingHeld(e);
      if e.kind != 1 {
        return;
      }
      var start, end: nat := e.base, (e.base + e.length) % U64;
      if start >= FOUR_GB {
        return;
      }
      if end > FOUR_GB {
        end := FOUR_GB;
      }
      var firstFrame := (start + FRAME_SIZE - 1) / FRAME_SIZE;
      var lastFrame := end / FRAME_SIZE;
      if lastFrame > MAX_FRAMES {
        lastFrame := MAX_FRAMES;
      }
      RoundedRange(e, firstFrame, lastFrame);
      var frame := firstFrame;
      while frame < lastFrame
        invariant firstFrame <= frame
        invariant forall f :: 0 <= f < MAX_FRAMES ==>
          (!State().bits[f] <==> !old(State().bits)[f] || (firstFrame <= f < frame && f < lastFrame))
        invariant totalFrames == CountClear(State().bits)
      {
        var used := BitmapTest(frame);
        if used {
          CountSetUpdate(State().bits, frame, false);
          BitmapClear(frame);
          totalFrames := totalFrames + 1;
        }
        frame := frame + 1;
      }
    }

    method AllocFrame() returns (paddr: nat)
      requires Valid()
      modifies this`usedFrames, bitmap
      ensures (State(), paddr) == Alloc(old(State()))
    {
      var frame := 0;
      while frame < MAX_FRAMES
        invariant 0 <= frame <= MAX_FRAMES
        invariant State() == old(State())
        invariant forall j :: 0 <= j < frame ==> State().bits[j]
      {
        var used := BitmapTest(frame);
        if !used {
          FirstClearIs(State().bits, 0, frame);
          BitmapSet(frame);
          usedFrames := usedFrames + 1;
          return frame * FRAME_SIZE;
        }
        frame := frame + 1;
      }
      FirstClearIs(State().bits, 0, MAX_FRAMES);
      return 0;
    }

    method FreeFrame(paddr: nat)
      requires Valid()
      modifies this`usedFrames, bitmap
      ensures State() == Free(old(State()), paddr)
    {
      if paddr == 0 {
        return;
      }
      if paddr % FRAME_SIZE != 0 {
        return;
      }
      var frame := paddr / FRAME_SIZE;
      if frame >= MAX_FRAMES {
        return;
      }
      var used := BitmapTest(frame);
      if used {
        BitmapClear(frame);
        if usedFrames > 0 {
          usedFrames := usedFrames - 1;
        }
      }
    }

    /** The self-test of the shell's `meminfo`: it leaves the allocator as it found it, so the
        counter comparison it prints passes whatever the state it starts from. */
    method SelfTest(ghost usable: seq<bool>) returns (got: nat, pass: bool)
      requires Valid() && Inv(State(), usable)
      modifies this`usedFrames, bitmap
      ensures State() == old(State()) && pass
      ensures got == if State().total - State().used < 100 then State().total - State().used else 100
    {
      var before := usedFrames;
      ghost var p0 := State();
      var frames;
      frames, got := TakeBatch(usable);
      AllocManyTaken(p0, usable, 100);
      FreeManyRestores(State(), p0, frames);
      GiveBack(frames);
      pass := usedFrames == before;
    }

    method TakeBatch(ghost usable: seq<bool>) returns (frames: seq<nat>, got: nat)
      requires Valid() && Inv(State(), usable)
      modifies this`usedFrames, bitmap
      ensures got == |frames|
      ensures (State(), frames) == AllocMany(old(State()), 100)
    {
      hide Unpack;
      hide Inv;
      hide Alloc;
      hide Taken;
      var buffer := new nat[100];
      var i := 0;
      while i < 100
        invariant 0 <= i <= 100
        invariant (State(), buffer[..i]) == AllocMany(old(State()), i)
      {
        ghost var so := buffer[..i];
        AllocManyTaken(old(State()), usable, i);
        AllocLowest(State(), usable);
        var addr := AllocFrame();
        if addr == 0 {
          AllocManyStops(old(State()), i, 100);
          break;
        }
        buffer[i] := addr;
        assert buffer[..i + 1] == so + [addr];
        i := i + 1;
      }
      frames, got := buffer[..i], i;
    }

    method GiveBack(frames: seq<nat>)
      requires Valid()
      modifies this`usedFrames, bitmap
      ensures State() == FreeMany(old(State()), frames)
    {
      var i := 0;
      while i < |frames|
        invariant 0 <= i <= |frames|
        invariant FreeMany(State(), frames[i..]) == FreeMany(old(State()), frames)
      {
        assert frames[i..][1..] == frames[i + 1..];
        FreeFrame(frames[i]);
        i := i + 1;
      }
    }
  }

  /** Once an allocation fails, asking for more changes nothing. */
  lemma {:induction false} AllocManyStops(p: Frames, i: nat, k: nat)
    requires i < k && |AllocMany(p, i).1| == i && Alloc(AllocMany(p, i).0).1 == 0
    ensures AllocMany(p, k) == AllocMany(p, i)
    decreases k
  {
    if i < k - 1 {
      AllocManyStops(p, i, k - 1);
    }
  }

  lemma AllOnes(k: nat)
    requires k < 8
    ensures TestBit(0xFF, k)
  {
  }
}
