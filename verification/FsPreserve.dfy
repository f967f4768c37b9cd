/** Open, close, read, write and unlink keep the invariant; unlink exactly when no open
    descriptor refers to the file. */
module FsPreserve {
  import opened Bits
  import opened FsLayout
  import opened FsSpec
  import opened FsInv

  lemma CloseInv(fs: Fs, fd: int)
    requires Inv(fs)
    ensures Inv(Close(fs, fd).0)
  {
  }

  /** After creation every open descriptor still names a live inode of unchanged size. */
  lemma CreateInv(fs: Fs, name: Name)
    requires Inv(fs) && 0 !in name
    ensures Inv(fs.(disk := Create(fs.disk, name).0))
  {
    hide Create;
    CreateExact(fs.disk, name);
    var d := Create(fs.disk, name).0;
    forall g | 0 <= g < MAX_OPEN
      ensures FdOk(d, fs.fds[g])
    {
      assert FdOk(fs.disk, fs.fds[g]);
    }
  }

  lemma NewFdInv(fs: Fs, name: Name, fd: nat)
    requires Inv(fs) && fd < MAX_OPEN && FindInode(fs.disk.dir, name) != 0
    ensures Inv(fs.(fds := fs.fds[fd := Desc(FindInode(fs.disk.dir, name), 0, true)]))
  {
    var fds := fs.fds[fd := Desc(FindInode(fs.disk.dir, name), 0, true)];
    assert EntryOk(fs.disk, FindName(fs.disk.dir, name, 0));
    forall g | 0 <= g < MAX_OPEN
      ensures FdOk(fs.disk, fds[g])
    {
      assert FdOk(fs.disk, fs.fds[g]);
    }
  }

  lemma InvShaped(fs: Fs)
    requires Inv(fs)
    ensures FsShaped(fs)
  {
  }

  lemma OpenInv(fs: Fs, name: Name, create: bool)
    requires Inv(fs) && 0 !in name
    ensures Inv(Open(fs, name, create).0)
  {
    hide Inv;
    hide Create;
    hide FindInode;
    InvShaped(fs);
    CreateInv(fs, name);
    var made := FindInode(fs.disk.dir, name) == 0 && create;
    var fs1 := if made then fs.(disk := Create(fs.disk, name).0) else fs;
    var fd := FindFreeFd(fs.fds, 0);
    if FindInode(fs1.disk.dir, name) != 0 && fd < MAX_OPEN {
      NewFdInv(fs1, name, fd);
    }
  }

  lemma OkBacked(fs: Fs, fd: int)
    requires Inv(fs) && ValidFd(fs, fd)
    ensures FdBacked(fs, fd) && FdMapped(fs, fd) && InodeOk(fs.disk.inodes[fs.fds[fd].inode])
  {
    assert FdOk(fs.disk, fs.fds[fd]);
  }

  lemma ReadInv(fs: Fs, fd: int, count: nat)
    requires Inv(fs)
    ensures ValidFd(fs, fd) ==> FdBacked(fs, fd)
    ensures Inv(Read(fs, fd, count).0)
  {
    if ValidFd(fs, fd) {
      OkBacked(fs, fd);
      assert FdOk(fs.disk, fs.fds[fd]);
    }
  }

  /** A read from an open descriptor delivers the bytes from its offset on, up to the end. */
  lemma ReadChunk(fs: Fs, fd: int, c: nat)
    requires Inv(fs) && ValidFd(fs, fd)
    ensures FdBacked(fs, fd) && Inv(Read(fs, fd, c).0)
    ensures var (fs', bytes, n) := Read(fs, fd, c);
      var f := fs.fds[fd];
      var content := Content(fs.disk, f.inode);
      && f.offset <= |content| && n == Min(c, |content| - f.offset)
      && bytes == content[f.offset..f.offset + n]
      && fs' == fs.(fds := fs.fds[fd := f.(offset := f.offset + n)])
  {
    ReadInv(fs, fd, c);
    assert FdOk(fs.disk, fs.fds[fd]);
    assert fs.fds[fd := fs.fds[fd].(offset := fs.fds[fd].offset + 0)] == fs.fds;
  }

  lemma ReadNothing(fs: Fs, fd: int, count: nat)
    requires Inv(fs)
    ensures !ValidFd(fs, fd) ==> Read(fs, fd, count) == (fs, [], -1)
    ensures ValidFd(fs, fd) ==> FdBacked(fs, fd) && Read(fs, fd, 0) == (fs, [], 0)
  {
    if ValidFd(fs, fd) {
      OkBacked(fs, fd);
    }
  }

  lemma FdPlace(fs: Fs, fd: int)
    requires Inv(fs) && ValidFd(fs, fd)
    ensures FdBacked(fs, fd) && fs.fds[fd].offset <= fs.disk.inodes[fs.fds[fd].inode].size <= MAX_FILE_SIZE
  {
    OkBacked(fs, fd);
    assert FdOk(fs.disk, fs.fds[fd]);
  }

  // ---- Write ---------------------------------------------------------------------------

  /** Giving the free block b to empty slot k of live inode i keeps ownership exclusive. */
  lemma GrantOwner(d: Disk, d': Disk, i: nat, k: nat, b: nat, size: nat)
    requires Shaped(d) && Shaped(d') && Exclusive(d) && BitsMatch(d)
    requires i < MAX_INODES && k < DIRECT_BLOCKS && b < DATA_BLOCKS
    requires d.inodeBits[i] && d.inodes[i].blocks[k] == 0 && !d.blockBits[b]
    requires d'.inodeBits == d.inodeBits && d'.blockBits == d.blockBits[b := true]
    requires d'.inodes == d.inodes[i := Inode(size, d.inodes[i].blocks[k := DATA_START + b])]
    ensures Exclusive(d') && BitsMatch(d')
  {
    forall j: nat, l: nat, c: nat
      ensures Owns(d', j, l, c) <==> Owns(d, j, l, c) || (j == i && l == k && c == b)
    {
    }
    assert forall j: nat, l: nat :: !Owns(d, j, l, b);
    forall c | 0 <= c < DATA_BLOCKS && d'.blockBits[c]
      ensures exists j: nat, l: nat :: Owns(d', j, l, c)
    {
      if c == b {
        assert Owns(d', i, k, b);
      } else {
        var j: nat, l: nat :| Owns(d, j, l, c);
        assert Owns(d', j, l, c);
      }
    }
  }

  lemma GrantSlot(ino: Inode, k: nat, b: nat, size: nat)
    requires InodeOk(ino) && k < DIRECT_BLOCKS && DATA_START <= b < TOTAL_BLOCKS
    requires ino.size == k * BLOCK_SIZE < size <= (k + 1) * BLOCK_SIZE
    ensures InodeOk(Inode(size, ino.blocks[k := b])) && BlocksFor(size) == BlocksFor(ino.size) + 1
  {
  }

  /** Filling slot k of live inode i, the next one of its file, with the free block b. */
  lemma GrantBlock(d: Disk, d': Disk, i: nat, k: nat, b: nat, size: nat)
    requires BlocksInv(d) && Shaped(d')
    requires i < MAX_INODES && k < DIRECT_BLOCKS && b < DATA_BLOCKS
    requires d.inodeBits[i] && d.inodes[i].size == k * BLOCK_SIZE < size <= (k + 1) * BLOCK_SIZE && !d.blockBits[b]
    requires d'.inodeBits == d.inodeBits && d'.blockBits == d.blockBits[b := true] && d'.freeBlocks == d.freeBlocks - 1
    requires d'.inodes == d.inodes[i := Inode(size, d.inodes[i].blocks[k := DATA_START + b])]
    ensures BlocksInv(d')
  {
    GrantSlot(d.inodes[i], k, DATA_START + b, size);
    GrantOwner(d, d', i, k, b, size);
    CountSetUpdate(d.blockBits, b, true);
    UsedBlocksUpdate(d.inodes, d.inodeBits, i, d'.inodes[i], true);
    assert d.inodeBits[i := true] == d.inodeBits;
  }

  /** Changing the size of live inode i within its blocks. */
  lemma ResizeOnly(d: Disk, d': Disk, i: nat, size: nat)
    requires BlocksInv(d) && Shaped(d') && i < MAX_INODES && d.inodeBits[i]
    requires BlocksFor(size) == BlocksFor(d.inodes[i].size) && size <= MAX_FILE_SIZE
    requires d'.inodeBits == d.inodeBits && d'.blockBits == d.blockBits && d'.freeBlocks == d.freeBlocks
    requires d'.inodes == d.inodes[i := Inode(size, d.inodes[i].blocks)]
    ensures BlocksInv(d')
  {
    forall j: nat, l: nat, c: nat
      ensures Owns(d', j, l, c) <==> Owns(d, j, l, c)
    {
    }
    forall c | 0 <= c < DATA_BLOCKS && d'.blockBits[c]
      ensures exists j: nat, l: nat :: Owns(d', j, l, c)
    {
      var j: nat, l: nat :| Owns(d, j, l, c);
      assert Owns(d', j, l, c);
    }
    UsedBlocksUpdate(d.inodes, d.inodeBits, i, d'.inodes[i], true);
    assert d.inodeBits[i := true] == d.inodeBits;
  }

  lemma DirIgnores(d: Disk, d': Disk)
    requires DirInv(d) && Shaped(d')
    requires d'.dir == d.dir && d'.inodeBits == d.inodeBits && d'.freeInodes == d.freeInodes
    ensures DirInv(d')
  {
    forall e | 0 <= e < DIR_ENTRIES
      ensures EntryOk(d', e)
    {
      assert EntryOk(d, e);
    }
  }

  /** Whether the next pass of the write loop needs a block of its own. */
  predicate Grows(fs: Fs, fd: int)
    requires FdMapped(fs, fd)
  {
    var f := fs.fds[fd];
    var size := fs.disk.inodes[f.inode].size;
    f.offset == size && size % BLOCK_SIZE == 0
  }

  lemma FreeBlockIff(d: Disk)
    requires BlocksInv(d)
    ensures FirstClear(d.blockBits, 0) < DATA_BLOCKS <==> d.freeBlocks > 0
  {
    var b := FirstClear(d.blockBits, 0);
    if b == DATA_BLOCKS {
      CountSetAll(d.blockBits);
    } else {
      CountSetUpdate(d.blockBits, b, true);
    }
  }

  lemma GrowsIff(fs: Fs, fd: int)
    requires Inv(fs) && ValidFd(fs, fd) && FdMapped(fs, fd)
    ensures var f := fs.fds[fd];
      var k := f.offset / BLOCK_SIZE;
      && (k < DIRECT_BLOCKS <==> f.offset < MAX_FILE_SIZE)
      && (k < DIRECT_BLOCKS ==> (Grows(fs, fd) <==> fs.disk.inodes[f.inode].blocks[k] == 0))
  {
    OkBacked(fs, fd);
    assert FdOk(fs.disk, fs.fds[fd]);
  }

  /** What one pass of the write loop does to a consistent file system. It fails exactly at the
      size limit, or when it needs a block and none is free. */
  lemma ChunkFacts(fs: Fs, fd: int, bs: seq<byte>)
    requires Inv(fs) && ValidFd(fs, fd)
    requires FdMapped(fs, fd) && 0 < |bs| <= Room(fs, fd)
    ensures var (fs', ok) := WriteChunk(fs, fd, bs);
      var f := fs.fds[fd];
      var d, d' := fs.disk, fs'.disk;
      var ino := d.inodes[f.inode];
      var k := f.offset / BLOCK_SIZE;
      && (ok <==> f.offset < MAX_FILE_SIZE && (Grows(fs, fd) ==> d.freeBlocks > 0))
      && (ok ==>
          var b := if Grows(fs, fd) then FirstClear(d.blockBits, 0) else ino.blocks[k] - DATA_START;
          && 0 <= b < DATA_BLOCKS && k < DIRECT_BLOCKS
          && (Grows(fs, fd) ==> !d.blockBits[b])
          && fs'.fds == fs.fds[fd := f.(offset := f.offset + |bs|)]
          && d'.header == d.header && d'.dir == d.dir && d'.inodeBits == d.inodeBits && d'.freeInodes == d.freeInodes
          && d'.blockBits == (if Grows(fs, fd) then d.blockBits[b := true] else d.blockBits)
          && d'.freeBlocks == d.freeBlocks - (if Grows(fs, fd) then 1 else 0)
          && d'.inodes == d.inodes[f.inode := Inode(Max(ino.size, f.offset + |bs|), ino.blocks[k := DATA_START + b])]
          && d'.data == d.data[b := Store(d.data[b], f.offset % BLOCK_SIZE, bs)])
  {
    FreeBlockIff(fs.disk);
    GrowsIff(fs, fd);
  }

  lemma ChunkBlocks(fs: Fs, fd: int, bs: seq<byte>)
    requires Inv(fs) && ValidFd(fs, fd)
    requires FdMapped(fs, fd) && 0 < |bs| <= Room(fs, fd) && WriteChunk(fs, fd, bs).1
    ensures BlocksInv(WriteChunk(fs, fd, bs).0.disk)
  {
    hide WriteChunk;
    hide Exclusive;
    hide BitsMatch;
    hide DirInv;
    hide UsedBlocks;
    ChunkFacts(fs, fd, bs);
    var d, d' := fs.disk, WriteChunk(fs, fd, bs).0.disk;
    var f := fs.fds[fd];
    var ino := d.inodes[f.inode];
    assert FdOk(d, f) && InodeOk(ino);
    var k := f.offset / BLOCK_SIZE;
    var size := Max(ino.size, f.offset + |bs|);
    GrowsIff(fs, fd);
    if Grows(fs, fd) {
      GrantBlock(d, d', f.inode, k, FirstClear(d.blockBits, 0), size);
    } else {
      assert k * BLOCK_SIZE < ino.size && size <= Max(ino.size, (k + 1) * BLOCK_SIZE);
      assert ino.blocks[k := ino.blocks[k]] == ino.blocks;
      ResizeOnly(d, d', f.inode, size);
    }
  }

  lemma ChunkInv(fs: Fs, fd: int, bs: seq<byte>)
    requires Inv(fs) && ValidFd(fs, fd)
    requires FdMapped(fs, fd) && 0 < |bs| <= Room(fs, fd)
    ensures Inv(WriteChunk(fs, fd, bs).0)
  {
    var (fs', ok) := WriteChunk(fs, fd, bs);
    if ok {
      ChunkFacts(fs, fd, bs);
      ChunkBlocks(fs, fd, bs);
      DirIgnores(fs.disk, fs'.disk);
      FdsGrow(fs, fs', fd, Max(fs.disk.inodes[fs.fds[fd].inode].size, fs.fds[fd].offset + |bs|));
    }
  }

  lemma FdsGrow(fs: Fs, fs': Fs, fd: int, size: nat)
    requires FsShaped(fs) && FsShaped(fs') && ValidFd(fs, fd)
    requires forall g :: 0 <= g < MAX_OPEN ==> FdOk(fs.disk, fs.fds[g])
    requires var f := fs.fds[fd];
      && fs'.fds == fs.fds[fd := f.(offset := fs'.fds[fd].offset)] && fs'.fds[fd].offset <= size
      && f.inode < MAX_INODES && fs.disk.inodes[f.inode].size <= size
      && fs'.disk.inodeBits == fs.disk.inodeBits
      && fs'.disk.inodes == fs.disk.inodes[f.inode := Inode(size, fs'.disk.inodes[f.inode].blocks)]
    ensures forall g :: 0 <= g < MAX_OPEN ==> FdOk(fs'.disk, fs'.fds[g])
  {
    forall g | 0 <= g < MAX_OPEN
      ensures FdOk(fs'.disk, fs'.fds[g])
    {
      assert FdOk(fs.disk, fs.fds[g]);
    }
  }

  lemma {:induction false} WriteInv(fs: Fs, fd: int, buf: seq<byte>)
    requires Inv(fs) && ValidFd(fs, fd)
    ensures FdMapped(fs, fd) && Inv(WriteLoop(fs, fd, buf).0)
    decreases |buf|
  {
    OkBacked(fs, fd);
    if buf != [] {
      var n := Min(Room(fs, fd), |buf|);
      ChunkInv(fs, fd, buf[..n]);
      var (fs', ok) := WriteChunk(fs, fd, buf[..n]);
      if ok {
        WriteInv(fs', fd, buf[n..]);
      }
    }
  }

  // ---- Unlink --------------------------------------------------------------------------

  function NonZero(bs: seq<nat>): nat {
    if bs == [] then 0 else (if bs[0] != 0 then 1 else 0) + NonZero(bs[1..])
  }

  /** An inode's filled slots number its blocks. */
  lemma {:induction false} FilledSlots(ino: Inode, k: nat)
    requires InodeOk(ino) && k <= DIRECT_BLOCKS
    ensures NonZero(ino.blocks[k..]) == Max(0, BlocksFor(ino.size) - k)
    decreases DIRECT_BLOCKS - k
  {
    if k < DIRECT_BLOCKS {
      assert ino.blocks[k..][1..] == ino.blocks[k + 1..];
      FilledSlots(ino, k + 1);
    }
  }

  /** Freeing a list of distinct allocated blocks clears exactly their bits and counts them back. */
  lemma {:induction false} FreeBlocksExact(d: Disk, bs: seq<nat>)
    requires Shaped(d) && d.freeBlocks == DATA_BLOCKS - CountSet(d.blockBits)
    requires forall k :: 0 <= k < |bs| && bs[k] != 0 ==> DATA_START <= bs[k] < TOTAL_BLOCKS && d.blockBits[bs[k] - DATA_START]
    requires forall k, l :: 0 <= k < l < |bs| && bs[k] != 0 ==> bs[k] != bs[l]
    ensures var d' := FreeBlocks(d, bs);
      && d' == d.(blockBits := d'.blockBits, freeBlocks := d.freeBlocks + NonZero(bs))
      && d'.freeBlocks == DATA_BLOCKS - CountSet(d'.blockBits)
      && (forall b :: 0 <= b < DATA_BLOCKS ==> (d'.blockBits[b] <==> d.blockBits[b] && DATA_START + b !in bs))
    decreases |bs|
  {
    hide CountSet;
    if bs != [] {
      var d1 := if bs[0] != 0 then FreeBlock(d, bs[0]) else d;
      if bs[0] != 0 {
        CountSetUpdate(d.blockBits, bs[0] - DATA_START, false);
      }
      FreeBlocksExact(d1, bs[1..]);
      forall x: nat
        ensures x in bs <==> x == bs[0] || x in bs[1..]
      {
        assert bs == [bs[0]] + bs[1..];
      }
    }
  }

  /** Freeing every block of live inode i. */
  lemma FreeFile(d: Disk, i: nat)
    requires BlocksInv(d) && i < MAX_INODES && d.inodeBits[i]
    ensures var d' := FreeBlocks(d, d.inodes[i].blocks);
      && d' == d.(blockBits := d'.blockBits, freeBlocks := d.freeBlocks + BlocksFor(d.inodes[i].size))
      && d'.freeBlocks == DATA_BLOCKS - CountSet(d'.blockBits)
      && (forall b :: 0 <= b < DATA_BLOCKS ==> (d'.blockBits[b] <==> d.blockBits[b] && DATA_START + b !in d.inodes[i].blocks))
  {
    OwnPointers(d, i);
    FreeBlocksExact(d, d.inodes[i].blocks);
    FilledSlots(d.inodes[i], 0);
    assert d.inodes[i].blocks[0..] == d.inodes[i].blocks;
  }

  /** The disk after unlinking: the file's entry, inode bit and blocks are given back, nothing else. */
  lemma UnlinkExact(fs: Fs, name: Name)
    requires Inv(fs) && FindInode(fs.disk.dir, name) != 0
    ensures forall e :: 0 <= e < DIR_ENTRIES ==> fs.disk.dir[e].inode < MAX_INODES
    ensures var d, d' := fs.disk, Unlink(fs, name).0.disk;
      var e := FindName(d.dir, name, 0);
      var i := d.dir[e].inode;
      && 0 < i < MAX_INODES && d.inodeBits[i]
      && d' == d.(dir := d.dir[e := DirEntry(d.dir[e].name[0 := 0], 0)], inodeBits := d.inodeBits[i := false],
                  freeInodes := d.freeInodes + 1, blockBits := d'.blockBits,
                  freeBlocks := d.freeBlocks + BlocksFor(d.inodes[i].size))
      && d'.freeBlocks == DATA_BLOCKS - CountSet(d'.blockBits)
      && (forall b :: 0 <= b < DATA_BLOCKS ==> (d'.blockBits[b] <==> d.blockBits[b] && DATA_START + b !in d.inodes[i].blocks))
  {
    var d := fs.disk;
    forall e | 0 <= e < DIR_ENTRIES
      ensures d.dir[e].inode < MAX_INODES
    {
      assert EntryOk(d, e);
    }
    var e := FindName(d.dir, name, 0);
    assert EntryOk(d, e);
    FreeFile(d, d.dir[e].inode);
    FirstHolder(d, e);
  }

  lemma FirstHolder(d: Disk, e: nat)
    requires DirInv(d) && e < DIR_ENTRIES && d.dir[e].inode != 0
    ensures FindEntry(d.dir, d.dir[e].inode, 0) == e
  {
  }

  /** The pointers of one live inode are distinct and their bits are set. */
  lemma OwnPointers(d: Disk, i: nat)
    requires BlocksInv(d) && i < MAX_INODES && d.inodeBits[i]
    ensures forall k :: 0 <= k < DIRECT_BLOCKS && d.inodes[i].blocks[k] != 0 ==>
      DATA_START <= d.inodes[i].blocks[k] < TOTAL_BLOCKS && d.blockBits[d.inodes[i].blocks[k] - DATA_START]
    ensures forall k, l :: 0 <= k < l < DIRECT_BLOCKS && d.inodes[i].blocks[k] != 0 ==>
      d.inodes[i].blocks[k] != d.inodes[i].blocks[l]
  {
    var bs := d.inodes[i].blocks;
    forall k | 0 <= k < DIRECT_BLOCKS && bs[k] != 0
      ensures d.blockBits[bs[k] - DATA_START]
    {
      assert Owns(d, i, k, bs[k] - DATA_START);
    }
    forall k, l | 0 <= k < l < DIRECT_BLOCKS && bs[k] != 0
      ensures bs[k] != bs[l]
    {
      assert Owns(d, i, k, bs[k] - DATA_START) && (bs[l] == bs[k] ==> Owns(d, i, l, bs[k] - DATA_START));
    }
  }

  lemma UnlinkBlocks(fs: Fs, name: Name)
    requires Inv(fs) && FindInode(fs.disk.dir, name) != 0
    requires forall e :: 0 <= e < DIR_ENTRIES ==> fs.disk.dir[e].inode < MAX_INODES
    ensures BlocksInv(Unlink(fs, name).0.disk)
  {
    UnlinkExact(fs, name);
    var d, d' := fs.disk, Unlink(fs, name).0.disk;
    var i := FindInode(d.dir, name);
    forall j: nat, k: nat, b: nat
      ensures Owns(d', j, k, b) <==> Owns(d, j, k, b) && j != i
    {
    }
    forall j: nat, k: nat, b: nat | Owns(d', j, k, b)
      ensures b < DATA_BLOCKS && d'.blockBits[b]
    {
      if DATA_START + b in d.inodes[i].blocks {
        var l :| 0 <= l < DIRECT_BLOCKS && d.inodes[i].blocks[l] == DATA_START + b;
        assert Owns(d, i, l, b);
      }
    }
    forall b | 0 <= b < DATA_BLOCKS && d'.blockBits[b]
      ensures exists j: nat, k: nat :: Owns(d', j, k, b)
    {
      var j: nat, k: nat :| Owns(d, j, k, b);
      assert Owns(d', j, k, b);
    }
    UsedBlocksUpdate(d.inodes, d.inodeBits, i, d.inodes[i], false);
    assert d.inodes[i := d.inodes[i]] == d.inodes;
  }

  lemma UnlinkDir(fs: Fs, name: Name)
    requires Inv(fs) && FindInode(fs.disk.dir, name) != 0
    requires forall e :: 0 <= e < DIR_ENTRIES ==> fs.disk.dir[e].inode < MAX_INODES
    ensures DirInv(Unlink(fs, name).0.disk)
  {
    UnlinkExact(fs, name);
    var d, d' := fs.disk, Unlink(fs, name).0.disk;
    var e := FindName(d.dir, name, 0);
    var i := d.dir[e].inode;
    var entry := DirEntry(d.dir[e].name[0 := 0], 0);
    CountSetUpdate(d.inodeBits, i, false);
    FilesUpdate(d.dir, e, entry);
    DistinctUpdate(d.dir, e, entry);
    forall f | 0 <= f < DIR_ENTRIES
      ensures EntryOk(d', f)
    {
      assert EntryOk(d, f);
    }
    forall j | 0 <= j < MAX_INODES && d'.inodeBits[j]
      ensures j != 0 && FindEntry(d'.dir, j, 0) < DIR_ENTRIES
    {
      FindEntryUpdate(d.dir, e, entry, j);
      var f := FindEntry(d.dir, j, 0);
      assert f != e && d.dir[f].inode == j;
    }
  }

  /** Unlinking keeps the invariant exactly when no open descriptor refers to the file. */
  lemma UnlinkInvExactly(fs: Fs, name: Name)
    requires Inv(fs)
    ensures forall e :: 0 <= e < DIR_ENTRIES ==> fs.disk.dir[e].inode < MAX_INODES
    ensures Inv(Unlink(fs, name).0) <==>
      FindInode(fs.disk.dir, name) == 0 ||
      forall fd :: 0 <= fd < MAX_OPEN && fs.fds[fd].valid ==> fs.fds[fd].inode != FindInode(fs.disk.dir, name)
  {
    var d := fs.disk;
    forall e | 0 <= e < DIR_ENTRIES
      ensures d.dir[e].inode < MAX_INODES
    {
      assert EntryOk(d, e);
    }
    var i := FindInode(d.dir, name);
    if i != 0 {
      UnlinkExact(fs, name);
      UnlinkBlocks(fs, name);
      UnlinkDir(fs, name);
      var d' := Unlink(fs, name).0.disk;
      forall fd | 0 <= fd < MAX_OPEN
        ensures FdOk(d', fs.fds[fd]) <==> (fs.fds[fd].valid ==> fs.fds[fd].inode != i)
      {
        assert FdOk(d, fs.fds[fd]);
      }
    }
  }
}
