/** Bit-packed bitmaps, as the frame allocator and the RAM disk keep them: bit i of a
    bitmap is bit i % 8 of byte i / 8. */
module Bits {

  type byte = bv8

  predicate TestBit(b: byte, k: nat)
    requires k < 8
  {
    b & ((1 as bv8) << k) != 0
  }

  function SetBit(b: byte, k: nat): byte
    requires k < 8
  {
    b | ((1 as bv8) << k)
  }

  function ClearBit(b: byte, k: nat): byte
    requires k < 8
  {
    b & !((1 as bv8) << k)
  }

  lemma SetBitTest(b: byte, k: nat, j: nat)
    requires k < 8 && j < 8
    ensures TestBit(SetBit(b, k), j) == (j == k || TestBit(b, j))
  {
  }

  lemma ClearBitTest(b: byte, k: nat, j: nat)
    requires k < 8 && j < 8
    ensures TestBit(ClearBit(b, k), j) == (j != k && TestBit(b, j))
  {
  }

  function Place(k: nat): byte
    requires k < 8
  {
    if k == 0 then 0x01 else if k == 1 then 0x02 else if k == 2 then 0x04 else if k == 3 then 0x08
    else if k == 4 then 0x10 else if k == 5 then 0x20 else if k == 6 then 0x40 else 0x80
  }

  /** Bit k is the one of value 1, 2, 4, .., 128. */
  lemma BitPlace(b: byte, k: nat)
    requires k < 8
    ensures TestBit(b, k) <==> b & Place(k) != 0
    ensures SetBit(b, k) == b | Place(k)
    ensures ClearBit(b, k) == b & !Place(k)
  {
    PlaceIs(k);
  }

  lemma PlaceIs(k: nat)
    requires k < 8
    ensures (1 as bv8) << k == Place(k)
  {
  }

  /** The bits of a packed bitmap, one boolean each. */
  function Unpack(packed: seq<byte>): (bits: seq<bool>)
    ensures |bits| == 8 * |packed|
    ensures forall i :: 0 <= i < |bits| ==> bits[i] == TestBit(packed[i / 8], i % 8)
  {
    seq(8 * |packed|, i requires 0 <= i < 8 * |packed| => TestBit(packed[i / 8], i % 8))
  }

  /** Setting one bit in its byte changes that bit of the bitmap and no other. */
  lemma UnpackSet(packed: seq<byte>, i: nat)
    requires i < 8 * |packed|
    ensures Unpack(packed[i / 8 := SetBit(packed[i / 8], i % 8)]) == Unpack(packed)[i := true]
  {
    hide TestBit;
    hide SetBit;
    var after := packed[i / 8 := SetBit(packed[i / 8], i % 8)];
    forall j | 0 <= j < 8 * |packed|
      ensures Unpack(after)[j] == Unpack(packed)[i := true][j]
    {
      if j / 8 == i / 8 {
        SetBitTest(packed[i / 8], i % 8, j % 8);
      }
    }
  }

  /** Clearing one bit in its byte changes that bit of the bitmap and no other. */
  lemma UnpackClear(packed: seq<byte>, i: nat)
    requires i < 8 * |packed|
    ensures Unpack(packed[i / 8 := ClearBit(packed[i / 8], i % 8)]) == Unpack(packed)[i := false]
  {
    hide TestBit;
    hide ClearBit;
    var after := packed[i / 8 := ClearBit(packed[i / 8], i % 8)];
    forall j | 0 <= j < 8 * |packed|
      ensures Unpack(after)[j] == Unpack(packed)[i := false][j]
    {
      if j / 8 == i / 8 {
        ClearBitTest(packed[i / 8], i % 8, j % 8);
      }
    }
  }

  /** First-fit search: the least clear index from `from` on, or |bits| when there is none. */
  function FirstClear(bits: seq<bool>, from: nat): (r: nat)
    requires from <= |bits|
    ensures from <= r <= |bits|
    ensures forall j :: from <= j < r ==> bits[j]
    ensures r < |bits| ==> !bits[r]
    decreases |bits| - from
  {
    if from == |bits| || !bits[from] then from else FirstClear(bits, from + 1)
  }

  /** A clear bit whose predecessors from `from` on are all set is the one the search finds. */
  lemma {:induction false} FirstClearIs(bits: seq<bool>, from: nat, r: nat)
    requires from <= r <= |bits|
    requires forall j :: from <= j < r ==> bits[j]
    requires r < |bits| ==> !bits[r]
    ensures FirstClear(bits, from) == r
    decreases r - from
  {
    if from < r {
      FirstClearIs(bits, from + 1, r);
    }
  }

  function CountSet(bits: seq<bool>): (n: nat)
    ensures n <= |bits|
  {
    if bits == [] then 0 else CountSet(bits[..|bits| - 1]) + (if bits[|bits| - 1] then 1 else 0)
  }

  function CountClear(bits: seq<bool>): (n: nat)
  {
    |bits| - CountSet(bits)
  }

  lemma {:induction false} CountSetUpdate(bits: seq<bool>, i: nat, v: bool)
    requires i < |bits|
    ensures CountSet(bits[i := v]) == CountSet(bits) - (if bits[i] then 1 else 0) + (if v then 1 else 0)
  {
    var n := |bits| - 1;
    if i == n {
      assert bits[i := v][..n] == bits[..n];
    } else {
      assert bits[i := v][..n] == bits[..n][i := v];
      CountSetUpdate(bits[..n], i, v);
    }
  }

  lemma {:induction false} CountSetNone(bits: seq<bool>)
    requires forall i :: 0 <= i < |bits| ==> !bits[i]
    ensures CountSet(bits) == 0
  {
    if bits != [] {
      CountSetNone(bits[..|bits| - 1]);
    }
  }

  lemma {:induction false} CountSetAll(bits: seq<bool>)
    requires forall i :: 0 <= i < |bits| ==> bits[i]
    ensures CountSet(bits) == |bits|
  {
    if bits != [] {
      CountSetAll(bits[..|bits| - 1]);
    }
  }

  /** A prefix of set bits bounds the count from below. */
  lemma {:induction false} CountSetPrefix(bits: seq<bool>, lo: nat, hi: nat)
    requires lo <= hi <= |bits|
    requires forall i :: lo <= i < hi ==> bits[i]
    ensures hi - lo <= CountSet(bits)
    decreases |bits|
  {
    if bits != [] {
      var n := |bits| - 1;
      if hi == |bits| && lo < hi {
        CountSetPrefix(bits[..n], lo, n);
      } else if hi < |bits| {
        CountSetPrefix(bits[..n], lo, hi);
      }
    }
  }

  /** If every clear bit of `bits` is marked in `marks` and some marked bit is set, fewer bits
      are clear than marked. */
  lemma {:induction false} CountClearBelow(bits: seq<bool>, marks: seq<bool>)
    requires |bits| == |marks|
    requires forall i :: 0 <= i < |bits| && !bits[i] ==> marks[i]
    ensures CountClear(bits) <= CountSet(marks)
    ensures (exists i :: 0 <= i < |bits| && bits[i] && marks[i]) ==> CountClear(bits) < CountSet(marks)
  {
    if bits != [] {
      var n := |bits| - 1;
      CountClearBelow(bits[..n], marks[..n]);
      if i :| 0 <= i < |bits| && bits[i] && marks[i] {
        if i < n {
          assert bits[..n][i] && marks[..n][i];
        }
      }
    }
  }
}
