/** The 1 MB RAM disk as one byte sequence, and what its bytes mean: superblock, directory, two
    bitmaps, 1024 inodes and 220 data blocks at fixed addresses (kernel/fs.h). Every structured
    update of kernel/fs.c stores bytes inside one of these, and is shown here to change exactly
    its own field of the decoded disk. */
module FsLayout {
  import opened Bits

  const BLOCK_SIZE := 4096
  const DISK_SIZE := 0x100000
  const TOTAL_BLOCKS := 256
  const DATA_START := 36
  const DATA_BLOCKS := 220
  const INODE_SIZE := 128
  const MAX_INODES := 1024
  const DIRECT_BLOCKS := 8
  const MAX_FILE_SIZE := 32768
  const NAME_LEN := 28
  const DIR_ENTRY_SIZE := 32
  const DIR_ENTRIES := 128

  const FREE_BLOCKS_ADDR := 16
  const FREE_INODES_ADDR := 20
  const DIR_ADDR := 4096
  const BLOCK_BITMAP_ADDR := 8192
  const INODE_BITMAP_ADDR := 12288
  const INODES_ADDR := 16384
  const DATA_ADDR := 147456

  datatype DirEntry = DirEntry(name: seq<byte>, inode: nat)
  datatype Inode = Inode(size: nat, blocks: seq<nat>)

  /** The decoded disk. `header` is the four fixed words of the superblock. */
  datatype Disk = Disk(
    header: seq<nat>,
    freeBlocks: nat,
    freeInodes: nat,
    dir: seq<DirEntry>,
    blockBits: seq<bool>,
    inodeBits: seq<bool>,
    inodes: seq<Inode>,
    data: seq<seq<byte>>)

  predicate Shaped(d: Disk) {
    && |d.dir| == DIR_ENTRIES && (forall e :: 0 <= e < DIR_ENTRIES ==> |d.dir[e].name| == NAME_LEN)
    && |d.blockBits| == DATA_BLOCKS && |d.inodeBits| == MAX_INODES
    && |d.inodes| == MAX_INODES && (forall i :: 0 <= i < MAX_INODES ==> |d.inodes[i].blocks| == DIRECT_BLOCKS)
    && |d.data| == DATA_BLOCKS && (forall b :: 0 <= b < DATA_BLOCKS ==> |d.data[b]| == BLOCK_SIZE)
  }

  // ---- Little-endian words -------------------------------------------------------------

  function Word(d: seq<byte>, a: nat): nat
    requires a + 4 <= |d|
  {
    d[a] as int + 0x100 * d[a + 1] as int + 0x1_0000 * d[a + 2] as int + 0x100_0000 * d[a + 3] as int
  }

  function Encode(v: nat): (bs: seq<byte>)
    requires v < 0x1_0000_0000
    ensures |bs| == 4
  {
    [(v % 0x100) as byte, (v / 0x100 % 0x100) as byte, (v / 0x1_0000 % 0x100) as byte, (v / 0x100_0000) as byte]
  }

  function Store(d: seq<byte>, a: nat, bs: seq<byte>): (r: seq<byte>)
    requires a + |bs| <= |d|
    ensures |r| == |d|
    ensures forall x :: 0 <= x < |d| ==> r[x] == if a <= x < a + |bs| then bs[x - a] else d[x]
  {
    d[..a] + bs + d[a + |bs|..]
  }

  lemma ByteRoundTrip(x: nat)
    requires x < 0x100
    ensures (x as byte) as int == x
  {
    if x < 128 {
      RoundTripLow(x);
    } else if x < 192 {
      if x < 160 { if x < 144 {} else {} } else { if x < 176 {} else {} }
    } else {
      if x < 224 { if x < 208 {} else {} } else { if x < 240 {} else {} }
    }
  }

  lemma RoundTripLow(x: nat)
    requires x < 0x80
    ensures (x as byte) as int == x
  {
    if x < 64 {
      if x < 32 { if x < 16 {} else {} } else { if x < 48 {} else {} }
    } else {
      if x < 96 { if x < 80 {} else {} } else { if x < 112 {} else {} }
    }
  }

  lemma EncodeWord(v: nat)
    requires v < 0x1_0000_0000
    ensures Word(Encode(v), 0) == v
  {
    ByteRoundTrip(v % 0x100);
    ByteRoundTrip(v / 0x100 % 0x100);
    ByteRoundTrip(v / 0x1_0000 % 0x100);
    ByteRoundTrip(v / 0x100_0000);
    SplitWord(v);
  }

  lemma SplitWord(v: nat)
    requires v < 0x1_0000_0000
    ensures v == v % 0x100 + 0x100 * (v / 0x100 % 0x100) + 0x1_0000 * (v / 0x1_0000 % 0x100) + 0x100_0000 * (v / 0x100_0000)
  {
    assert v / 0x1_0000 == v / 0x100 / 0x100 && v / 0x100_0000 == v / 0x100 / 0x100 / 0x100;
  }

  /** Storing a word at `a` changes the word at `a` and no word apart from it. */
  lemma StoreWord(d: seq<byte>, a: nat, v: nat)
    requires a + 4 <= |d| && v < 0x1_0000_0000
    ensures Word(Store(d, a, Encode(v)), a) == v
  {
    EncodeWord(v);
  }

  // ---- Decoding ------------------------------------------------------------------------

  function DirEntryAddr(e: nat): nat { DIR_ADDR + DIR_ENTRY_SIZE * e }
  function InodeAddr(i: nat): nat { INODES_ADDR + INODE_SIZE * i }
  function BlockAddr(b: nat): nat { BLOCK_SIZE * b }

  function DirEntryAt(d: seq<byte>, e: nat): DirEntry
    requires |d| == DISK_SIZE && e < DIR_ENTRIES
  {
    DirEntry(d[DirEntryAddr(e)..DirEntryAddr(e) + NAME_LEN], Word(d, DirEntryAddr(e) + NAME_LEN))
  }

  function InodeAt(d: seq<byte>, i: nat): Inode
    requires |d| == DISK_SIZE && i < MAX_INODES
  {
    Inode(Word(d, InodeAddr(i)),
          seq(DIRECT_BLOCKS, k requires 0 <= k < DIRECT_BLOCKS => Word(d, InodeAddr(i) + 4 + 4 * k)))
  }

  function HeaderOf(d: seq<byte>): seq<nat>
    requires |d| == DISK_SIZE
  {
    [Word(d, 0), Word(d, 4), Word(d, 8), Word(d, 12)]
  }

  function DirOf(d: seq<byte>): seq<DirEntry>
    requires |d| == DISK_SIZE
  {
    seq(DIR_ENTRIES, e requires 0 <= e < DIR_ENTRIES => DirEntryAt(d, e))
  }

  function BlockBitsOf(d: seq<byte>): seq<bool>
    requires |d| == DISK_SIZE
  {
    Unpack(d[BLOCK_BITMAP_ADDR..BLOCK_BITMAP_ADDR + 28])[..DATA_BLOCKS]
  }

  function InodeBitsOf(d: seq<byte>): seq<bool>
    requires |d| == DISK_SIZE
  {
    Unpack(d[INODE_BITMAP_ADDR..INODE_BITMAP_ADDR + 128])
  }

  function InodesOf(d: seq<byte>): seq<Inode>
    requires |d| == DISK_SIZE
  {
    seq(MAX_INODES, i requires 0 <= i < MAX_INODES => InodeAt(d, i))
  }

  function BlockAt(d: seq<byte>, b: nat): (r: seq<byte>)
    requires |d| == DISK_SIZE && b < DATA_BLOCKS
    ensures |r| == BLOCK_SIZE
  {
    d[BlockAddr(DATA_START + b)..BlockAddr(DATA_START + b + 1)]
  }

  function DataOf(d: seq<byte>): seq<seq<byte>>
    requires |d| == DISK_SIZE
  {
    seq(DATA_BLOCKS, b requires 0 <= b < DATA_BLOCKS => BlockAt(d, b))
  }

  function Decode(d: seq<byte>): (r: Disk)
    requires |d| == DISK_SIZE
    ensures Shaped(r)
  {
    Disk(HeaderOf(d), Word(d, FREE_BLOCKS_ADDR), Word(d, FREE_INODES_ADDR), DirOf(d), BlockBitsOf(d), InodeBitsOf(d),
         InodesOf(d), DataOf(d))
  }

  /** A word has its low byte first. */
  lemma LittleEndian(d: seq<byte>, a: nat, x: byte, y: byte, z: byte, w: byte)
    requires a + 4 <= |d| && d[a..a + 4] == [x, y, z, w]
    ensures Word(d, a) == x as int + 256 * y as int + 65536 * z as int + 16777216 * w as int
  {
    var bs := d[a..a + 4];
    assert d[a] == bs[0] && d[a + 1] == bs[1] && d[a + 2] == bs[2] && d[a + 3] == bs[3];
  }

  /** Where everything stands on the disk, in bytes. */
  lemma Addresses(d: seq<byte>)
    requires |d| == 1048576
    ensures var r := Decode(d);
      && r.header == [Word(d, 0), Word(d, 4), Word(d, 8), Word(d, 12)]
      && r.freeBlocks == Word(d, 16) && r.freeInodes == Word(d, 20)
      && |r.dir| == 128 && |r.blockBits| == 220 && |r.inodeBits| == |r.inodes| == 1024 && |r.data| == 220
      && (forall e :: 0 <= e < 128 ==>
            r.dir[e] == DirEntry(d[4096 + 32 * e..4096 + 32 * e + 28], Word(d, 4096 + 32 * e + 28)))
      && (forall b :: 0 <= b < 220 ==> r.blockBits[b] == TestBit(d[8192 + b / 8], b % 8))
      && (forall i :: 0 <= i < 1024 ==> r.inodeBits[i] == TestBit(d[12288 + i / 8], i % 8))
      && (forall i :: 0 <= i < 1024 ==> r.inodes[i].size == Word(d, 16384 + 128 * i) && |r.inodes[i].blocks| == 8)
      && (forall i, k :: 0 <= i < 1024 && 0 <= k < 8 ==> r.inodes[i].blocks[k] == Word(d, 16384 + 128 * i + 4 + 4 * k))
      && (forall b :: 0 <= b < 220 ==> r.data[b] == d[147456 + 4096 * b..147456 + 4096 * b + 4096])
  {
    hide Word;
    hide TestBit;
  }

  // ---- Regions are disjoint ------------------------------------------------------------

  ghost predicate Apart(a: nat, n: nat, lo: nat, hi: nat) {
    a + n <= lo || hi <= a
  }

  lemma FrameDir(d: seq<byte>, a: nat, bs: seq<byte>)
    requires |d| == DISK_SIZE && a + |bs| <= |d| && Apart(a, |bs|, DIR_ADDR, BLOCK_BITMAP_ADDR)
    ensures DirOf(Store(d, a, bs)) == DirOf(d)
  {
    forall e | 0 <= e < DIR_ENTRIES
      ensures DirEntryAt(Store(d, a, bs), e) == DirEntryAt(d, e)
    {
      FrameDirEntry(d, a, bs, e);
    }
  }

  lemma FrameDirEntry(d: seq<byte>, a: nat, bs: seq<byte>, e: nat)
    requires |d| == DISK_SIZE && a + |bs| <= |d| && e < DIR_ENTRIES
    requires Apart(a, |bs|, DirEntryAddr(e), DirEntryAddr(e + 1))
    ensures DirEntryAt(Store(d, a, bs), e) == DirEntryAt(d, e)
  {
  }

  lemma FrameInodes(d: seq<byte>, a: nat, bs: seq<byte>)
    requires |d| == DISK_SIZE && a + |bs| <= |d| && Apart(a, |bs|, INODES_ADDR, DATA_ADDR)
    ensures InodesOf(Store(d, a, bs)) == InodesOf(d)
  {
    forall i | 0 <= i < MAX_INODES
      ensures InodeAt(Store(d, a, bs), i) == InodeAt(d, i)
    {
      FrameInode(d, a, bs, i);
    }
  }

  lemma FrameInode(d: seq<byte>, a: nat, bs: seq<byte>, i: nat)
    requires |d| == DISK_SIZE && a + |bs| <= |d| && i < MAX_INODES
    requires Apart(a, |bs|, InodeAddr(i), InodeAddr(i + 1))
    ensures InodeAt(Store(d, a, bs), i) == InodeAt(d, i)
  {
  }

  lemma FrameData(d: seq<byte>, a: nat, bs: seq<byte>)
    requires |d| == DISK_SIZE && a + |bs| <= |d| && a + |bs| <= DATA_ADDR
    ensures DataOf(Store(d, a, bs)) == DataOf(d)
  {
    forall b | 0 <= b < DATA_BLOCKS
      ensures BlockAt(Store(d, a, bs), b) == BlockAt(d, b)
    {
    }
  }

  lemma FrameBitmaps(d: seq<byte>, a: nat, bs: seq<byte>)
    requires |d| == DISK_SIZE && a + |bs| <= |d|
    ensures Apart(a, |bs|, BLOCK_BITMAP_ADDR, INODE_BITMAP_ADDR) ==> BlockBitsOf(Store(d, a, bs)) == BlockBitsOf(d)
    ensures Apart(a, |bs|, INODE_BITMAP_ADDR, INODES_ADDR) ==> InodeBitsOf(Store(d, a, bs)) == InodeBitsOf(d)
  {
    var e := Store(d, a, bs);
    if Apart(a, |bs|, BLOCK_BITMAP_ADDR, INODE_BITMAP_ADDR) {
      assert e[BLOCK_BITMAP_ADDR..BLOCK_BITMAP_ADDR + 28] == d[BLOCK_BITMAP_ADDR..BLOCK_BITMAP_ADDR + 28];
    }
    if Apart(a, |bs|, INODE_BITMAP_ADDR, INODES_ADDR) {
      assert e[INODE_BITMAP_ADDR..INODE_BITMAP_ADDR + 128] == d[INODE_BITMAP_ADDR..INODE_BITMAP_ADDR + 128];
    }
  }

  function SuperOf(d: seq<byte>): (seq<nat>, nat, nat)
    requires |d| == DISK_SIZE
  {
    (HeaderOf(d), Word(d, FREE_BLOCKS_ADDR), Word(d, FREE_INODES_ADDR))
  }

  lemma FrameSuper(d: seq<byte>, a: nat, bs: seq<byte>)
    requires |d| == DISK_SIZE && a + |bs| <= |d| && a >= FREE_INODES_ADDR + 4
    ensures SuperOf(Store(d, a, bs)) == SuperOf(d)
  {
  }

  /** A store outside a region leaves the decoded region alone. */
  lemma Frame(d: seq<byte>, a: nat, bs: seq<byte>)
    requires |d| == DISK_SIZE && a + |bs| <= |d|
    ensures Apart(a, |bs|, DIR_ADDR, BLOCK_BITMAP_ADDR) ==> DirOf(Store(d, a, bs)) == DirOf(d)
    ensures Apart(a, |bs|, BLOCK_BITMAP_ADDR, INODE_BITMAP_ADDR) ==> BlockBitsOf(Store(d, a, bs)) == BlockBitsOf(d)
    ensures Apart(a, |bs|, INODE_BITMAP_ADDR, INODES_ADDR) ==> InodeBitsOf(Store(d, a, bs)) == InodeBitsOf(d)
    ensures Apart(a, |bs|, INODES_ADDR, DATA_ADDR) ==> InodesOf(Store(d, a, bs)) == InodesOf(d)
    ensures a + |bs| <= DATA_ADDR ==> DataOf(Store(d, a, bs)) == DataOf(d)
    ensures a >= FREE_INODES_ADDR + 4 ==> SuperOf(Store(d, a, bs)) == SuperOf(d)
  {
    FrameBitmaps(d, a, bs);
    if a >= FREE_INODES_ADDR + 4 { FrameSuper(d, a, bs); }
    if Apart(a, |bs|, DIR_ADDR, BLOCK_BITMAP_ADDR) { FrameDir(d, a, bs); }
    if Apart(a, |bs|, INODES_ADDR, DATA_ADDR) { FrameInodes(d, a, bs); }
    if a + |bs| <= DATA_ADDR { FrameData(d, a, bs); }
  }

  // ---- Each update changes its own field -----------------------------------------------

  lemma StoreFreeBlocks(d: seq<byte>, v: nat)
    requires |d| == DISK_SIZE && v < 0x1_0000_0000
    ensures Decode(Store(d, FREE_BLOCKS_ADDR, Encode(v))) == Decode(d).(freeBlocks := v)
  {
    hide Encode;
    hide Unpack;
    hide DirEntryAt;
    hide InodeAt;
    hide BlockAt;
    StoreWord(d, FREE_BLOCKS_ADDR, v);
    Frame(d, FREE_BLOCKS_ADDR, Encode(v));
  }

  lemma StoreFreeInodes(d: seq<byte>, v: nat)
    requires |d| == DISK_SIZE && v < 0x1_0000_0000
    ensures Decode(Store(d, FREE_INODES_ADDR, Encode(v))) == Decode(d).(freeInodes := v)
  {
    hide Encode;
    hide Unpack;
    hide DirEntryAt;
    hide InodeAt;
    hide BlockAt;
    StoreWord(d, FREE_INODES_ADDR, v);
    Frame(d, FREE_INODES_ADDR, Encode(v));
  }

  /** The byte that holds bit i of the bitmap at `base`, with that bit rewritten. */
  function BitByte(d: seq<byte>, base: nat, i: nat, v: bool): byte
    requires base + i / 8 < |d|
  {
    var b := d[base + i / 8];
    if v then SetBit(b, i % 8) else ClearBit(b, i % 8)
  }

  lemma UnpackStore(d: seq<byte>, base: nat, len: nat, i: nat, v: bool)
    requires base + len <= |d| && i < 8 * len
    ensures Unpack(Store(d, base + i / 8, [BitByte(d, base, i, v)])[base..base + len]) == Unpack(d[base..base + len])[i := v]
  {
    var packed := d[base..base + len];
    assert Store(d, base + i / 8, [BitByte(d, base, i, v)])[base..base + len] == packed[i / 8 := BitByte(d, base, i, v)];
    if v { UnpackSet(packed, i); } else { UnpackClear(packed, i); }
  }

  lemma StoreBlockBit(d: seq<byte>, i: nat, v: bool)
    requires |d| == DISK_SIZE && i < DATA_BLOCKS
    ensures Decode(Store(d, BLOCK_BITMAP_ADDR + i / 8, [BitByte(d, BLOCK_BITMAP_ADDR, i, v)])) ==
      Decode(d).(blockBits := Decode(d).blockBits[i := v])
  {
    hide Store;
    hide Word;
    hide Unpack;
    hide InodeAt;
    hide DirEntryAt;
    hide BlockAt;
    hide BitByte;
    UnpackStore(d, BLOCK_BITMAP_ADDR, 28, i, v);
    Frame(d, BLOCK_BITMAP_ADDR + i / 8, [BitByte(d, BLOCK_BITMAP_ADDR, i, v)]);
  }

  lemma StoreInodeBit(d: seq<byte>, i: nat, v: bool)
    requires |d| == DISK_SIZE && i < MAX_INODES
    ensures Decode(Store(d, INODE_BITMAP_ADDR + i / 8, [BitByte(d, INODE_BITMAP_ADDR, i, v)])) ==
      Decode(d).(inodeBits := Decode(d).inodeBits[i := v])
  {
    hide Store;
    hide Word;
    hide Unpack;
    hide InodeAt;
    hide DirEntryAt;
    hide BlockAt;
    hide BitByte;
    InodeBitStored(d, i, v);
    Frame(d, INODE_BITMAP_ADDR + i / 8, [BitByte(d, INODE_BITMAP_ADDR, i, v)]);
  }

  lemma InodeBitStored(d: seq<byte>, i: nat, v: bool)
    requires |d| == DISK_SIZE && i < MAX_INODES
    ensures InodeBitsOf(Store(d, INODE_BITMAP_ADDR + i / 8, [BitByte(d, INODE_BITMAP_ADDR, i, v)])) == InodeBitsOf(d)[i := v]
  {
    UnpackStore(d, INODE_BITMAP_ADDR, 128, i, v);
  }

  /** A store inside one inode record leaves every other inode, and everything else, alone. */
  lemma StoreInInode(d: seq<byte>, i: nat, a: nat, bs: seq<byte>)
    requires |d| == DISK_SIZE && i < MAX_INODES
    requires InodeAddr(i) <= a && a + |bs| <= InodeAddr(i + 1)
    ensures Decode(Store(d, a, bs)) ==
      Decode(d).(inodes := Decode(d).inodes[i := InodeAt(Store(d, a, bs), i)])
  {
    Frame(d, a, bs);
    forall j | 0 <= j < MAX_INODES && j != i
      ensures InodeAt(Store(d, a, bs), j) == InodeAt(d, j)
    {
      FrameInode(d, a, bs, j);
    }
    assert InodesOf(Store(d, a, bs)) == InodesOf(d)[i := InodeAt(Store(d, a, bs), i)];
  }

  lemma StoreInodeSize(d: seq<byte>, i: nat, v: nat)
    requires |d| == DISK_SIZE && i < MAX_INODES && v < 0x1_0000_0000
    ensures Decode(Store(d, InodeAddr(i), Encode(v))) ==
      Decode(d).(inodes := Decode(d).inodes[i := Decode(d).inodes[i].(size := v)])
  {
    hide Encode;
    hide Unpack;
    hide DirEntryAt;
    hide BlockAt;
    StoreInInode(d, i, InodeAddr(i), Encode(v));
    StoreWord(d, InodeAddr(i), v);
    assert InodeAt(Store(d, InodeAddr(i), Encode(v)), i).blocks == InodeAt(d, i).blocks;
  }

  lemma StoreInodeBlock(d: seq<byte>, i: nat, k: nat, v: nat)
    requires |d| == DISK_SIZE && i < MAX_INODES && k < DIRECT_BLOCKS && v < 0x1_0000_0000
    ensures var ino := Decode(d).inodes[i];
      Decode(Store(d, InodeAddr(i) + 4 + 4 * k, Encode(v))) ==
      Decode(d).(inodes := Decode(d).inodes[i := ino.(blocks := ino.blocks[k := v])])
  {
    StoreInInode(d, i, InodeAddr(i) + 4 + 4 * k, Encode(v));
    InodeBlockStored(d, i, k, v);
  }

  lemma InodeBlockStored(d: seq<byte>, i: nat, k: nat, v: nat)
    requires |d| == DISK_SIZE && i < MAX_INODES && k < DIRECT_BLOCKS && v < 0x1_0000_0000
    ensures InodeAt(Store(d, InodeAddr(i) + 4 + 4 * k, Encode(v)), i) ==
      InodeAt(d, i).(blocks := InodeAt(d, i).blocks[k := v])
  {
    var a := InodeAddr(i) + 4 + 4 * k;
    var e := Store(d, a, Encode(v));
    StoreWord(d, a, v);
    forall j | 0 <= j < DIRECT_BLOCKS && j != k
      ensures Word(e, InodeAddr(i) + 4 + 4 * j) == Word(d, InodeAddr(i) + 4 + 4 * j)
    {
      StoreOtherWord(d, a, Encode(v), InodeAddr(i) + 4 + 4 * j);
    }
    StoreOtherWord(d, a, Encode(v), InodeAddr(i));
    assert InodeAt(e, i).blocks == InodeAt(d, i).blocks[k := v];
  }

  lemma StoreOtherWord(d: seq<byte>, a: nat, bs: seq<byte>, w: nat)
    requires a + |bs| <= |d| && w + 4 <= |d| && Apart(a, |bs|, w, w + 4)
    ensures Word(Store(d, a, bs), w) == Word(d, w)
  {
  }

  const NO_BLOCKS: seq<nat> := [0, 0, 0, 0, 0, 0, 0, 0]

  lemma ClearInode(d: seq<byte>, i: nat, zeros: seq<byte>)
    requires |d| == DISK_SIZE && i < MAX_INODES
    requires |zeros| == INODE_SIZE && forall x :: 0 <= x < INODE_SIZE ==> zeros[x] == 0
    ensures Decode(Store(d, InodeAddr(i), zeros)) == Decode(d).(inodes := Decode(d).inodes[i := Inode(0, NO_BLOCKS)])
  {
    StoreInInode(d, i, InodeAddr(i), zeros);
    assert InodeAt(Store(d, InodeAddr(i), zeros), i).blocks == NO_BLOCKS;
  }

  /** A store inside one directory entry leaves every other entry, and everything else, alone. */
  lemma StoreInDirEntry(d: seq<byte>, e: nat, a: nat, bs: seq<byte>)
    requires |d| == DISK_SIZE && e < DIR_ENTRIES
    requires DirEntryAddr(e) <= a && a + |bs| <= DirEntryAddr(e + 1)
    ensures Decode(Store(d, a, bs)) == Decode(d).(dir := Decode(d).dir[e := DirEntryAt(Store(d, a, bs), e)])
  {
    hide Store;
    hide Word;
    hide Unpack;
    hide InodeAt;
    hide BlockAt;
    Frame(d, a, bs);
    forall j | 0 <= j < DIR_ENTRIES && j != e
      ensures DirEntryAt(Store(d, a, bs), j) == DirEntryAt(d, j)
    {
      FrameDirEntry(d, a, bs, j);
    }
    assert DirOf(Store(d, a, bs)) == DirOf(d)[e := DirEntryAt(Store(d, a, bs), e)];
  }

  lemma StoreDirInode(d: seq<byte>, e: nat, v: nat)
    requires |d| == DISK_SIZE && e < DIR_ENTRIES && v < 0x1_0000_0000
    ensures Decode(Store(d, DirEntryAddr(e) + NAME_LEN, Encode(v))) ==
      Decode(d).(dir := Decode(d).dir[e := Decode(d).dir[e].(inode := v)])
  {
    hide Store;
    hide Unpack;
    hide InodeAt;
    hide BlockAt;
    hide Encode;
    var a := DirEntryAddr(e) + NAME_LEN;
    StoreInDirEntry(d, e, a, Encode(v));
    StoreWord(d, a, v);
    assert DirEntryAt(Store(d, a, Encode(v)), e).name == DirEntryAt(d, e).name;
  }

  lemma StoreDirName(d: seq<byte>, e: nat, off: nat, bs: seq<byte>)
    requires |d| == DISK_SIZE && e < DIR_ENTRIES && off + |bs| <= NAME_LEN
    ensures Decode(Store(d, DirEntryAddr(e) + off, bs)) ==
      Decode(d).(dir := Decode(d).dir[e := Decode(d).dir[e].(name := Store(Decode(d).dir[e].name, off, bs))])
  {
    hide Store;
    hide Word;
    hide Unpack;
    hide InodeAt;
    hide BlockAt;
    StoreInDirEntry(d, e, DirEntryAddr(e) + off, bs);
    DirNameStored(d, e, off, bs);
  }

  lemma DirNameStored(d: seq<byte>, e: nat, off: nat, bs: seq<byte>)
    requires |d| == DISK_SIZE && e < DIR_ENTRIES && off + |bs| <= NAME_LEN
    ensures DirEntryAt(Store(d, DirEntryAddr(e) + off, bs), e) ==
      DirEntryAt(d, e).(name := Store(DirEntryAt(d, e).name, off, bs))
  {
    StoreInSlice(d, DirEntryAddr(e), NAME_LEN, off, bs);
    StoreOtherWord(d, DirEntryAddr(e) + off, bs, DirEntryAddr(e) + NAME_LEN);
  }

  lemma StoreInSlice(d: seq<byte>, base: nat, len: nat, off: nat, bs: seq<byte>)
    requires base + len <= |d| && off + |bs| <= len
    ensures Store(d, base + off, bs)[base..base + len] == Store(d[base..base + len], off, bs)
  {
  }

  lemma StoreData(d: seq<byte>, b: nat, off: nat, bs: seq<byte>)
    requires |d| == DISK_SIZE && b < DATA_BLOCKS && off + |bs| <= BLOCK_SIZE
    ensures Decode(Store(d, BlockAddr(DATA_START + b) + off, bs)) ==
      Decode(d).(data := Decode(d).data[b := Store(Decode(d).data[b], off, bs)])
  {
    hide Store;
    hide Word;
    hide Unpack;
    hide InodeAt;
    hide DirEntryAt;
    var a := BlockAddr(DATA_START + b) + off;
    Frame(d, a, bs);
    StoreInSlice(d, BlockAddr(DATA_START + b), BLOCK_SIZE, off, bs);
    forall j | 0 <= j < DATA_BLOCKS && j != b
      ensures BlockAt(Store(d, a, bs), j) == BlockAt(d, j)
    {
      FrameBlock(d, a, bs, j);
    }
    assert DataOf(Store(d, a, bs)) == DataOf(d)[b := Store(DataOf(d)[b], off, bs)];
  }

  lemma FrameBlock(d: seq<byte>, a: nat, bs: seq<byte>, b: nat)
    requires |d| == DISK_SIZE && a + |bs| <= |d| && b < DATA_BLOCKS
    requires Apart(a, |bs|, BlockAddr(DATA_START + b), BlockAddr(DATA_START + b + 1))
    ensures BlockAt(Store(d, a, bs), b) == BlockAt(d, b)
  {
  }
}
