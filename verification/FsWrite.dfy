/** Writing: what reaches the file, how much of it, and that splitting a write changes nothing. */
module FsWrite {
  import opened Bits
  import opened FsLayout
  import opened FsSpec
  import opened FsInv
  import opened FsPreserve
  import opened FsAbs

  // ---- Write fusion on the concrete disk -----------------------------------------------

  /** Two stores in a row are one store of the concatenation. */
  lemma StoreFuse(s: seq<byte>, off: nat, x: seq<byte>, y: seq<byte>)
    requires off + |x| + |y| <= |s|
    ensures Store(Store(s, off, x), off + |x|, y) == Store(s, off, x + y)
  {
  }

  /** A chunk may be cut in two: same disk, same offset, same success. */
  lemma ChunkSplit(fs: Fs, fd: int, x: seq<byte>, y: seq<byte>)
    requires FdMapped(fs, fd) && 0 < |x| && 0 < |y| && |x| + |y| <= Room(fs, fd)
    ensures WriteChunk(fs, fd, x + y).1 == WriteChunk(fs, fd, x).1
    ensures WriteChunk(fs, fd, x).1 ==>
      var fs1 := WriteChunk(fs, fd, x).0;
      && Room(fs1, fd) == Room(fs, fd) - |x|
      && WriteChunk(fs1, fd, y) == WriteChunk(fs, fd, x + y)
  {
    var (fs1, ok) := WriteChunk(fs, fd, x);
    if ok {
      var f := fs.fds[fd];
      var ino := fs.disk.inodes[f.inode];
      var k := f.offset / BLOCK_SIZE;
      assert (f.offset + |x|) / BLOCK_SIZE == k && (f.offset + |x|) % BLOCK_SIZE == f.offset % BLOCK_SIZE + |x|;
      var ino1 := fs1.disk.inodes[f.inode];
      var b := ino1.blocks[k];
      assert b != 0;
      var base := if ino.blocks[k] == 0 then AllocBlock(fs.disk).0 else fs.disk;
      StoreFuse(base.data[b - DATA_START], f.offset % BLOCK_SIZE, x, y);
      var fs2 := WriteChunk(fs, fd, x + y).0;
      var fs3 := WriteChunk(fs1, fd, y).0;
      assert ino1.blocks[k := b] == ino1.blocks;
      assert fs3.disk.data == fs2.disk.data;
      assert fs3.disk.inodes == fs2.disk.inodes;
      assert fs3.fds == fs2.fds;
    }
  }

  /** Whether a chunk is accepted does not depend on its bytes. */
  lemma ChunkSame(fs: Fs, fd: int, x: seq<byte>, y: seq<byte>)
    requires FdMapped(fs, fd) && |x| <= Room(fs, fd) && |y| <= Room(fs, fd)
    ensures WriteChunk(fs, fd, x).1 == WriteChunk(fs, fd, y).1
  {
  }

  /** Writing a and then b leaves the disk, the offset and the byte count of writing a + b, short
      writes included. */
  lemma {:induction false} WriteFusion(fs: Fs, fd: int, a: seq<byte>, b: seq<byte>)
    requires FdMapped(fs, fd)
    ensures var (fs1, m) := WriteLoop(fs, fd, a);
      var (fs2, n) := WriteLoop(fs1, fd, b);
      WriteLoop(fs, fd, a + b) == (fs2, m + n)
    decreases |a|
  {
    hide WriteChunk;
    hide Room;
    var ab := a + b;
    if a == [] {
      assert ab == b;
    } else if b == [] {
      assert ab == a;
    } else {
      var room := Room(fs, fd);
      var n := Min(room, |a|);
      assert n == |a| ==> a[..n] == a;
      var (fs1, ok) := WriteChunk(fs, fd, a[..n]);
      if !ok {
        ChunkSame(fs, fd, a[..n], ab[..Min(room, |ab|)]);
        ChunkSame(fs, fd, a[..n], b[..Min(room, |b|)]);
      } else if |a| >= room {
        assert ab[..n] == a[..n] && ab[n..] == a[n..] + b;
        WriteFusion(fs1, fd, a[n..], b);
      } else {
        FuseShort(fs, fd, a, b);
      }
    }
  }

  /** The case of a first write that stays inside one block. */
  lemma FuseShort(fs: Fs, fd: int, a: seq<byte>, b: seq<byte>)
    requires FdMapped(fs, fd) && a != [] && b != [] && |a| < Room(fs, fd)
    requires WriteChunk(fs, fd, a).1
    ensures var (fs1, m) := WriteLoop(fs, fd, a);
      var (fs2, n) := WriteLoop(fs1, fd, b);
      WriteLoop(fs, fd, a + b) == (fs2, m + n)
  {
    hide WriteChunk;
    hide Room;
    var ab := a + b;
    var fs1 := WriteChunk(fs, fd, a).0;
    assert a[..|a|] == a && a[|a|..] == [];
    assert WriteLoop(fs, fd, a) == (fs1, |a|);
    var n := Min(Room(fs, fd), |ab|);
    var y := b[..n - |a|];
    assert ab[..n] == a + y && ab[n..] == b[n - |a|..];
    ChunkSplit(fs, fd, a, y);
    assert Min(Room(fs1, fd), |b|) == n - |a|;
    assert b[..n - |a|] == y;
  }

  // ---- What a chunk does to contents ---------------------------------------------------

  /** How a chunk changes the inode and the one block it falls in. */
  predicate Extends(ino: Inode, ino': Inode, off: nat, len: nat) {
    && Backed(ino) && Backed(ino')
    && off <= ino.size && 0 < len <= BLOCK_SIZE - off % BLOCK_SIZE && ino'.size == Max(ino.size, off + len)
    && var k := off / BLOCK_SIZE;
    && k < DIRECT_BLOCKS && ino'.blocks == ino.blocks[k := ino'.blocks[k]]
    && (k * BLOCK_SIZE < ino.size ==> ino.blocks[k] == ino'.blocks[k])
    && DATA_START <= ino'.blocks[k]
    && (forall l :: 0 <= l < DIRECT_BLOCKS && l != k && ino'.blocks[l] != 0 ==> ino'.blocks[l] != ino'.blocks[k])
  }

  lemma ExtendsIntro(ino: Inode, ino': Inode, off: nat, len: nat, b: nat)
    requires InodeOk(ino) && InodeOk(ino') && off <= ino.size && off < MAX_FILE_SIZE
    requires 0 < len <= BLOCK_SIZE - off % BLOCK_SIZE && b >= DATA_START
    requires ino' == Inode(Max(ino.size, off + len), ino.blocks[off / BLOCK_SIZE := b])
    requires ino.blocks[off / BLOCK_SIZE] == 0 || ino.blocks[off / BLOCK_SIZE] == b
    requires forall k, l :: 0 <= k < l < DIRECT_BLOCKS && ino'.blocks[k] != 0 ==> ino'.blocks[k] != ino'.blocks[l]
    ensures Extends(ino, ino', off, len)
  {
  }

  lemma FdFacts(fs: Fs, fd: int)
    requires Inv(fs) && ValidFd(fs, fd)
    ensures var f := fs.fds[fd];
      && f.inode < MAX_INODES == |fs.disk.inodes| && f.offset <= fs.disk.inodes[f.inode].size && InodeOk(fs.disk.inodes[f.inode])
      && var bs := fs.disk.inodes[f.inode].blocks;
      && forall k, l :: 0 <= k < l < DIRECT_BLOCKS && bs[k] != 0 ==> bs[k] != bs[l]
  {
    assert FdOk(fs.disk, fs.fds[fd]);
    OwnPointers(fs.disk, fs.fds[fd].inode);
  }

  ghost predicate ChunkExtended(d: Disk, d': Disk, f: Desc, bs: seq<byte>) {
    && Shaped(d) && Shaped(d') && f.inode < MAX_INODES
    && Extends(d.inodes[f.inode], d'.inodes[f.inode], f.offset, |bs|)
    && var b := d'.inodes[f.inode].blocks[f.offset / BLOCK_SIZE] - DATA_START;
    && d'.data == d.data[b := Store(d.data[b], f.offset % BLOCK_SIZE, bs)]
  }

  lemma ChunkExtends(fs: Fs, fd: int, bs: seq<byte>)
    requires Inv(fs) && ValidFd(fs, fd)
    requires FdMapped(fs, fd) && 0 < |bs| <= Room(fs, fd) && WriteChunk(fs, fd, bs).1
    ensures ChunkExtended(fs.disk, WriteChunk(fs, fd, bs).0.disk, fs.fds[fd], bs)
  {
    hide Inv;
    hide WriteChunk;
    hide Extends;
    hide Store;
    ChunkFacts(fs, fd, bs);
    ChunkInv(fs, fd, bs);
    GrowsIff(fs, fd);
    FdFacts(fs, fd);
    FdFacts(WriteChunk(fs, fd, bs).0, fd);
    hide InodeOk;
    hide FdMapped;
    var f := fs.fds[fd];
    var d, d' := fs.disk, WriteChunk(fs, fd, bs).0.disk;
    ExtendsIntro(d.inodes[f.inode], d'.inodes[f.inode], f.offset, |bs|, d'.inodes[f.inode].blocks[f.offset / BLOCK_SIZE]);
  }

  lemma ExtendContent(d: Disk, d': Disk, i: nat, off: nat, bs: seq<byte>)
    requires Shaped(d) && Shaped(d') && i < MAX_INODES && Extends(d.inodes[i], d'.inodes[i], off, |bs|)
    requires var b := d'.inodes[i].blocks[off / BLOCK_SIZE] - DATA_START;
      d'.data == d.data[b := Store(d.data[b], off % BLOCK_SIZE, bs)]
    ensures Content(d', i) == Splice(Content(d, i), off, bs)
  {
    hide Content;
    hide Splice;
    hide Store;
    hide ByteAt;
    forall p | 0 <= p < d'.inodes[i].size
      ensures Content(d', i)[p] == Splice(Content(d, i), off, bs)[p]
    {
      SpliceByte(d.inodes[i], d'.inodes[i], d.data, off, bs, p);
    }
  }

  lemma ChunkOwn(fs: Fs, fd: int, bs: seq<byte>)
    requires Inv(fs) && ValidFd(fs, fd)
    requires FdMapped(fs, fd) && 0 < |bs| <= Room(fs, fd) && WriteChunk(fs, fd, bs).1
    ensures var f := fs.fds[fd];
      var d, d' := fs.disk, WriteChunk(fs, fd, bs).0.disk;
      && Backed(d.inodes[f.inode]) && Backed(d'.inodes[f.inode]) && f.offset <= d.inodes[f.inode].size
      && Content(d', f.inode) == Splice(Content(d, f.inode), f.offset, bs)
  {
    hide WriteChunk;
    hide Inv;
    ChunkExtends(fs, fd, bs);
    ExtendContent(fs.disk, WriteChunk(fs, fd, bs).0.disk, fs.fds[fd].inode, fs.fds[fd].offset, bs);
  }

  lemma SpliceByte(ino: Inode, ino': Inode, data: seq<seq<byte>>, off: nat, bs: seq<byte>, p: nat)
    requires Extends(ino, ino', off, |bs|) && |data| == DATA_BLOCKS && p < ino'.size
    requires forall b :: 0 <= b < DATA_BLOCKS ==> |data[b]| == BLOCK_SIZE
    ensures var b := ino'.blocks[off / BLOCK_SIZE] - DATA_START;
      var data' := data[b := Store(data[b], off % BLOCK_SIZE, bs)];
      ByteAt(ino', data', p) == if off <= p < off + |bs| then bs[p - off] else if p < ino.size then ByteAt(ino, data, p) else 0
  {
    var k := off / BLOCK_SIZE;
    if p / BLOCK_SIZE == k {
      assert p % BLOCK_SIZE - off % BLOCK_SIZE == p - off;
      assert p >= ino.size ==> off <= p < off + |bs|;
    } else {
      assert p < ino.size;
      assert !(off <= p < off + |bs|);
    }
  }

  lemma ChunkOther(fs: Fs, fd: int, bs: seq<byte>, j: nat)
    requires Inv(fs) && ValidFd(fs, fd)
    requires FdMapped(fs, fd) && 0 < |bs| <= Room(fs, fd) && WriteChunk(fs, fd, bs).1
    requires j < MAX_INODES && fs.disk.inodeBits[j] && j != fs.fds[fd].inode
    ensures var d, d' := fs.disk, WriteChunk(fs, fd, bs).0.disk;
      d'.inodes[j] == d.inodes[j] && Backed(d.inodes[j]) && Content(d', j) == Content(d, j)
  {
    hide Content;
    ChunkFacts(fs, fd, bs);
    ChunkInv(fs, fd, bs);
    GrowsIff(fs, fd);
    var i, k := fs.fds[fd].inode, fs.fds[fd].offset / BLOCK_SIZE;
    var d, d' := fs.disk, WriteChunk(fs, fd, bs).0.disk;
    assert FdOk(d, fs.fds[fd]);
    OtherContent(d, d', i, k, j);
  }

  /** A store into inode i's block does not reach inode j. */
  lemma OtherContent(d: Disk, d': Disk, i: nat, k: nat, j: nat)
    requires Shaped(d) && BlocksInv(d') && i < MAX_INODES && k < DIRECT_BLOCKS && j < MAX_INODES && j != i
    requires d'.inodeBits[i] && d'.inodeBits[j] && d'.inodes[j] == d.inodes[j] && d'.inodes[i].blocks[k] != 0
    requires forall b :: 0 <= b < DATA_BLOCKS && b != d'.inodes[i].blocks[k] - DATA_START ==> d'.data[b] == d.data[b]
    ensures Backed(d.inodes[j]) && Content(d', j) == Content(d, j)
  {
    var ino := d.inodes[j];
    assert InodeOk(ino);
    forall p | 0 <= p < ino.size
      ensures ByteAt(ino, d'.data, p) == ByteAt(ino, d.data, p)
    {
      assert Owns(d', j, p / BLOCK_SIZE, ino.blocks[p / BLOCK_SIZE] - DATA_START);
      assert Owns(d', i, k, d'.inodes[i].blocks[k] - DATA_START);
    }
  }

  // ---- Refinement ----------------------------------------------------------------------

  /** Rewriting one file and no other, under an unchanged directory. */
  lemma FilesReplace(d: Disk, d': Disk, e0: nat, c: seq<byte>)
    requires DiskInv(d) && DiskInv(d') && d'.dir == d.dir
    requires e0 < DIR_ENTRIES && d.dir[e0].inode != 0
    requires forall e :: 0 <= e < DIR_ENTRIES && d.dir[e].inode != 0 ==>
      (LiveEntry(d, e); LiveEntry(d', e);
       Content(d', d.dir[e].inode) == if e == e0 then c else Content(d, d.dir[e].inode))
    ensures FilesUpTo(d', DIR_ENTRIES) == FilesUpTo(d, DIR_ENTRIES)[NameAt(d.dir, e0) := c]
  {
    FilesUpToIs(d, DIR_ENTRIES);
    LiveEntry(d, e0);
    var m := FilesUpTo(d, DIR_ENTRIES)[NameAt(d.dir, e0) := c];
    forall e | 0 <= e < DIR_ENTRIES && d.dir[e].inode != 0
      ensures NameAt(d.dir, e) in m && d.dir[e].inode < MAX_INODES && Backed(d'.inodes[d.dir[e].inode])
      ensures m[NameAt(d.dir, e)] == Content(d', d.dir[e].inode)
    {
      LiveEntry(d, e);
      LiveEntry(d', e);
    }
    IsFilesUnique(d', m);
  }

  lemma FilesChunk(fs: Fs, fd: int, bs: seq<byte>)
    requires Inv(fs) && ValidFd(fs, fd)
    requires FdMapped(fs, fd) && 0 < |bs| <= Room(fs, fd) && WriteChunk(fs, fd, bs).1
    ensures Inv(WriteChunk(fs, fd, bs).0) && Sound(Abs(fs)) && IsOpen(Abs(fs), fd)
    ensures var h := Abs(fs).handles[fd];
      FilesUpTo(WriteChunk(fs, fd, bs).0.disk, DIR_ENTRIES) ==
        Abs(fs).files[h.file := Splice(Abs(fs).files[h.file], h.offset, bs)]
  {
    ChunkInv(fs, fd, bs);
    ChunkFacts(fs, fd, bs);
    ChunkOwn(fs, fd, bs);
    AbsSound(fs);
    AbsHandle(fs, fd);
    hide WriteChunk;
    hide Splice;
    hide Content;
    var d, d' := fs.disk, WriteChunk(fs, fd, bs).0.disk;
    var f, h := fs.fds[fd], Abs(fs).handles[fd];
    var e0 := FindEntry(d.dir, f.inode, 0);
    var c := Splice(Abs(fs).files[h.file], h.offset, bs);
    forall e | 0 <= e < DIR_ENTRIES && d.dir[e].inode != 0
      ensures d.dir[e].inode < MAX_INODES && Backed(d.inodes[d.dir[e].inode]) && Backed(d'.inodes[d.dir[e].inode])
      ensures Content(d', d.dir[e].inode) == if e == e0 then c else Content(d, d.dir[e].inode)
    {
      LiveEntry(d, e);
      LiveEntry(d', e);
      if e != e0 {
        ChunkOther(fs, fd, bs, d.dir[e].inode);
      }
    }
    FilesReplace(d, d', e0, c);
  }

  lemma HandlesChunk(fs: Fs, fd: int, bs: seq<byte>)
    requires Inv(fs) && ValidFd(fs, fd)
    requires FdMapped(fs, fd) && 0 < |bs| <= Room(fs, fd) && WriteChunk(fs, fd, bs).1
    ensures IsOpen(Abs(fs), fd)
    ensures Handles(WriteChunk(fs, fd, bs).0) ==
      Abs(fs).handles[fd := Abs(fs).handles[fd].(offset := Abs(fs).handles[fd].offset + |bs|)]
  {
    hide Inv;
    hide Content;
    hide FilesUpTo;
    ChunkFacts(fs, fd, bs);
    AbsHandle(fs, fd);
  }

  /** How many blocks a chunk costs, and that the capacity covers it. */
  lemma ChunkCost(fs: Fs, fd: int, bs: seq<byte>)
    requires Inv(fs) && ValidFd(fs, fd)
    requires FdMapped(fs, fd) && 0 < |bs| <= Room(fs, fd)
    ensures var (fs', ok) := WriteChunk(fs, fd, bs);
      var f := fs.fds[fd];
      var size := fs.disk.inodes[f.inode].size;
      && (ok <==> f.offset < Capacity(size, fs.disk.freeBlocks))
      && (ok ==>
          && f.offset + |bs| <= Capacity(size, fs.disk.freeBlocks)
          && fs'.disk.freeBlocks == fs.disk.freeBlocks + BlocksFor(size) - BlocksFor(Max(size, f.offset + |bs|)))
  {
    ChunkFacts(fs, fd, bs);
    OkBacked(fs, fd);
    hide WriteChunk;
    assert FdOk(fs.disk, fs.fds[fd]);
    ChunkSpace(fs.disk.inodes[fs.fds[fd].inode].size, fs.fds[fd].offset, |bs|, fs.disk.freeBlocks);
  }

  lemma ChunkSpace(size: nat, off: nat, len: nat, free: nat)
    requires off <= size <= MAX_FILE_SIZE && 0 < len <= BLOCK_SIZE - off % BLOCK_SIZE
    ensures var grows := off == size && size % BLOCK_SIZE == 0;
      var ok := off < MAX_FILE_SIZE && (grows ==> free > 0);
      && (ok <==> off < Capacity(size, free))
      && (ok ==> off + len <= Capacity(size, free)
                 && BlocksFor(Max(size, off + len)) == BlocksFor(size) + if grows then 1 else 0)
  {
    var k := off / BLOCK_SIZE;
    assert off == k * BLOCK_SIZE + off % BLOCK_SIZE;
    assert off + len <= (k + 1) * BLOCK_SIZE;
    if off < size || size % BLOCK_SIZE != 0 {
      assert BlocksFor(size) >= k + 1;
    }
  }

  lemma ChunkRefines(fs: Fs, fd: int, bs: seq<byte>)
    requires Inv(fs) && ValidFd(fs, fd)
    requires FdMapped(fs, fd) && 0 < |bs| <= Room(fs, fd)
    ensures var (fs', ok) := WriteChunk(fs, fd, bs);
      && Inv(fs') && Sound(Abs(fs)) && IsOpen(Abs(fs), fd)
      && (Abs(fs'), if ok then |bs| else 0) == AWrite(Abs(fs), fd, bs)
      && (ok ==> Abs(fs).handles[fd].offset + |bs| <= Capacity(|Abs(fs).files[Abs(fs).handles[fd].file]|, Abs(fs).free))
      && (!ok ==> forall n: nat :: Accepted(Abs(fs), fd, n) == 0)
  {
    hide WriteChunk;
    hide Content;
    hide Inv;
    hide FilesUpTo;
    hide AWrite;
    var (fs', ok) := WriteChunk(fs, fd, bs);
    ChunkInv(fs, fd, bs);
    ChunkCost(fs, fd, bs);
    AbsSound(fs);
    AbsHandle(fs, fd);
    OffsetInCapacity(fs, fd);
    if ok {
      FilesChunk(fs, fd, bs);
      HandlesChunk(fs, fd, bs);
      WriteAll(Abs(fs), fd, bs);
    } else {
      WriteNothing(Abs(fs), fd, bs);
    }
  }

  lemma OffsetInCapacity(fs: Fs, fd: int)
    requires Inv(fs) && ValidFd(fs, fd)
    ensures FdBacked(fs, fd)
    ensures fs.fds[fd].offset <= Capacity(fs.disk.inodes[fs.fds[fd].inode].size, fs.disk.freeBlocks)
  {
    OkBacked(fs, fd);
    assert FdOk(fs.disk, fs.fds[fd]);
  }

  lemma WriteAll(a: Model, fd: int, bs: seq<byte>)
    requires Sound(a) && IsOpen(a, fd)
    requires a.handles[fd].offset + |bs| <= Capacity(|a.files[a.handles[fd].file]|, a.free)
    ensures var h := a.handles[fd];
      var c := a.files[h.file];
      AWrite(a, fd, bs) ==
        (Model(a.files[h.file := Splice(c, h.offset, bs)], a.handles[fd := h.(offset := h.offset + |bs|)],
               a.free + BlocksFor(|c|) - BlocksFor(Max(|c|, h.offset + |bs|))), |bs|)
  {
    assert bs[..|bs|] == bs;
    SpaceLeft(|a.files[a.handles[fd].file]|, a.free, a.handles[fd].offset + |bs|);
  }

  lemma SpaceLeft(size: nat, free: nat, end: nat)
    requires end <= Capacity(size, free)
    ensures BlocksFor(Max(size, end)) <= BlocksFor(size) + free
  {
  }

  lemma WriteNothing(a: Model, fd: int, bs: seq<byte>)
    requires Sound(a) && IsOpen(a, fd) && Accepted(a, fd, |bs|) == 0
    ensures AWrite(a, fd, bs) == (a, 0)
  {
    var h := a.handles[fd];
    assert Splice(a.files[h.file], h.offset, []) == a.files[h.file];
    assert bs[..0] == [];
    assert a.files[h.file := a.files[h.file]] == a.files;
    assert a.handles[fd := h.(offset := h.offset + 0)] == a.handles;
  }

  lemma SpliceFuse(c: seq<byte>, off: nat, x: seq<byte>, y: seq<byte>)
    requires off <= |c|
    ensures off + |x| <= |Splice(c, off, x)|
    ensures Splice(Splice(c, off, x), off + |x|, y) == Splice(c, off, x + y)
  {
  }

  /** A simple write may be cut after any accepted prefix. */
  lemma AWriteSplit(a: Model, fd: int, x: seq<byte>, y: seq<byte>)
    requires Sound(a) && IsOpen(a, fd)
    requires a.handles[fd].offset + |x| <= Capacity(|a.files[a.handles[fd].file]|, a.free)
    ensures var a1 := AWrite(a, fd, x).0;
      Sound(a1) && AWrite(a, fd, x + y) == (AWrite(a1, fd, y).0, |x| + AWrite(a1, fd, y).1)
  {
    hide Splice;
    hide BlocksFor;
    WriteAll(a, fd, x);
    var h := a.handles[fd];
    var c := a.files[h.file];
    var a1 := AWrite(a, fd, x).0;
    var h1, c1 := a1.handles[fd], a1.files[h.file];
    SpaceKept(|c|, a.free, h.offset + |x|);
    var n := Accepted(a1, fd, |y|);
    assert Accepted(a, fd, |x + y|) == |x| + n;
    assert (x + y)[..|x| + n] == x + y[..n];
    SpliceFuse(c, h.offset, x, y[..n]);
    var c2 := Splice(c1, h1.offset, y[..n]);
    assert a.files[h.file := c1][h.file := c2] == a.files[h.file := c2];
    assert a.handles[fd := h1][fd := h1.(offset := h1.offset + n)] == a.handles[fd := h1.(offset := h1.offset + n)];
  }

  /** Writing moves blocks from free to used, so the capacity stays. */
  lemma SpaceKept(size: nat, free: nat, end: nat)
    requires end <= Capacity(size, free)
    ensures var size' := Max(size, end);
      var free' := free + BlocksFor(size) - BlocksFor(size');
      free' >= 0 && Capacity(size', free') == Capacity(size, free)
  {
    SpaceLeft(size, free, end);
  }

  lemma {:induction false} WriteLoopRefines(fs: Fs, fd: int, buf: seq<byte>)
    requires Inv(fs) && ValidFd(fs, fd)
    ensures FdMapped(fs, fd) && Sound(Abs(fs)) && IsOpen(Abs(fs), fd)
    ensures var (fs', n) := WriteLoop(fs, fd, buf);
      Inv(fs') && (Abs(fs'), n as int) == AWrite(Abs(fs), fd, buf)
    decreases |buf|
  {
    hide Capacity;
    hide FdBacked;
    hide BlocksFor;
    hide Content;
    hide WriteChunk;
    hide AWrite;
    hide Accepted;
    hide Abs;
    hide Inv;
    OkBacked(fs, fd);
    AbsSound(fs);
    AbsHandle(fs, fd);
    if buf == [] {
      OffsetInCapacity(fs, fd);
      WriteNone(Abs(fs), fd);
    } else {
      var n := Min(Room(fs, fd), |buf|);
      var x, y := buf[..n], buf[n..];
      var (fs1, ok) := WriteChunk(fs, fd, x);
      ChunkRefines(fs, fd, x);
      assert buf == x + y;
      if ok {
        WriteLoopRefines(fs1, fd, y);
        AWriteSplit(Abs(fs), fd, x, y);
      } else {
        WriteNothing(Abs(fs), fd, buf);
      }
    }
  }

  lemma WriteNone(a: Model, fd: int)
    requires Sound(a) && IsOpen(a, fd)
    ensures AWrite(a, fd, []) == (a, 0)
  {
    WriteNothing(a, fd, []);
  }

  lemma WriteRefines(fs: Fs, fd: int, buf: seq<byte>)
    requires Inv(fs)
    ensures Sound(Abs(fs))
    ensures ValidFd(fs, fd) ==> FdMapped(fs, fd)
    ensures var (fs', n) := Write(fs, fd, buf);
      Inv(fs') && (Abs(fs'), n) == AWrite(Abs(fs), fd, buf)
  {
    AbsSound(fs);
    AbsHandle(fs, fd);
    if ValidFd(fs, fd) {
      WriteLoopRefines(fs, fd, buf);
    }
  }

  /** The exact result of a write of n bytes: count, contents, size, offset and space. */
  predicate Written(fs: Fs, fd: int, buf: seq<byte>, fs': Fs, n: nat)
    requires FdBacked(fs, fd) && FdBacked(fs', fd)
  {
    var f, f' := fs.fds[fd], fs'.fds[fd];
    var c, c' := Content(fs.disk, f.inode), Content(fs'.disk, f'.inode);
    && f'.inode == f.inode && f'.offset == f.offset + n
    && f.offset <= |c|
    && n == Min(|buf|, Min(MAX_FILE_SIZE, (BlocksFor(|c|) + fs.disk.freeBlocks) * BLOCK_SIZE) - f.offset)
    && n <= |buf| && c' == Splice(c, f.offset, buf[..n])
    && fs'.disk.freeBlocks == fs.disk.freeBlocks + BlocksFor(|c|) - BlocksFor(|c'|)
  }

  lemma WriteExact(fs: Fs, fd: int, buf: seq<byte>)
    requires Inv(fs) && ValidFd(fs, fd)
    ensures FdBacked(fs, fd) && FdMapped(fs, fd)
    ensures FdBacked(WriteLoop(fs, fd, buf).0, fd)
    ensures Written(fs, fd, buf, WriteLoop(fs, fd, buf).0, WriteLoop(fs, fd, buf).1)
  {
    hide WriteLoop;
    hide Content;
    hide Splice;
    hide FilesUpTo;
    hide Inv;
    hide Handles;
    hide AWrite;
    hide Capacity;
    hide Sound;
    hide FdBacked;
    OkBacked(fs, fd);
    OffsetInCapacity(fs, fd);
    AbsHandle(fs, fd);
    WriteLoopRefines(fs, fd, buf);
    var (fs', n) := WriteLoop(fs, fd, buf);
    WriteKeepsPlace(fs, fd, buf);
    OkBacked(fs', fd);
    AbsHandle(fs', fd);
    AWriteExact(Abs(fs), fd, buf);
    CapacityIs(fs.disk.inodes[fs.fds[fd].inode].size, fs.disk.freeBlocks);
  }

  /** One inode and one descriptor may differ; the directory and the inode bitmap do not. */
  predicate SamePlace(fs: Fs, fs': Fs, fd: int) {
    && FsShaped(fs) && FsShaped(fs') && ValidFd(fs, fd) && fs.fds[fd].inode < MAX_INODES
    && var d, d' := fs.disk, fs'.disk;
    var f := fs.fds[fd];
    && fs'.fds == fs.fds[fd := f.(offset := fs'.fds[fd].offset)]
    && d'.header == d.header && d'.dir == d.dir && d'.inodeBits == d.inodeBits && d'.freeInodes == d.freeInodes
    && d'.inodes == d.inodes[f.inode := d'.inodes[f.inode]]
  }

  lemma SamePlaceSteps(fs0: Fs, fs1: Fs, fs2: Fs, fd: int)
    requires SamePlace(fs0, fs1, fd) && SamePlace(fs1, fs2, fd)
    ensures SamePlace(fs0, fs2, fd)
  {
  }

  lemma ChunkPlace(fs: Fs, fd: int, bs: seq<byte>)
    requires Inv(fs) && ValidFd(fs, fd)
    requires FdMapped(fs, fd) && 0 < |bs| <= Room(fs, fd)
    ensures Inv(WriteChunk(fs, fd, bs).0) && SamePlace(fs, fs, fd) && SamePlace(fs, WriteChunk(fs, fd, bs).0, fd)
  {
    hide WriteChunk;
    hide Inv;
    ChunkFacts(fs, fd, bs);
    ChunkInv(fs, fd, bs);
    assert fs.disk.inodes[fs.fds[fd].inode := fs.disk.inodes[fs.fds[fd].inode]] == fs.disk.inodes;
    assert fs.fds[fd := fs.fds[fd]] == fs.fds;
  }

  /** A write touches one inode, and neither the directory nor the inode bitmap. */
  lemma {:induction false} WriteKeepsPlace(fs: Fs, fd: int, buf: seq<byte>)
    requires Inv(fs) && ValidFd(fs, fd)
    ensures FdMapped(fs, fd) && SamePlace(fs, WriteLoop(fs, fd, buf).0, fd)
    decreases |buf|
  {
    hide WriteChunk;
    hide Inv;
    hide FdMapped;
    hide SamePlace;
    OkBacked(fs, fd);
    ChunkPlace(fs, fd, [0]);
    if buf != [] {
      var x := buf[..Min(Room(fs, fd), |buf|)];
      ChunkPlace(fs, fd, x);
      var (fs1, ok) := WriteChunk(fs, fd, x);
      if ok {
        PlaceValid(fs, fs1, fd);
        WriteKeepsPlace(fs1, fd, buf[|x|..]);
        SamePlaceSteps(fs, fs1, WriteLoop(fs1, fd, buf[|x|..]).0, fd);
      }
    }
  }

  lemma PlaceValid(fs: Fs, fs': Fs, fd: int)
    requires SamePlace(fs, fs', fd)
    ensures ValidFd(fs', fd)
  {
  }

  lemma CapacityIs(size: nat, free: nat)
    ensures Capacity(size, free) == Min(MAX_FILE_SIZE, (BlocksFor(size) + free) * BLOCK_SIZE)
  {
  }

  /** The result of a simple write; the blocks it takes never exceed those free. */
  lemma AWriteExact(a: Model, fd: int, buf: seq<byte>)
    requires Sound(a) && IsOpen(a, fd)
    requires a.handles[fd].offset <= Capacity(|a.files[a.handles[fd].file]|, a.free)
    ensures var (a', n) := AWrite(a, fd, buf);
      var h := a.handles[fd];
      var c := a.files[h.file];
      && 0 <= n == Min(|buf|, Capacity(|c|, a.free) - h.offset)
      && |a'.handles| == |a.handles| && a'.handles[fd] == Handle(h.file, h.offset + n)
      && h.file in a'.files && a'.files[h.file] == Splice(c, h.offset, buf[..n])
      && a'.free == a.free + BlocksFor(|c|) - BlocksFor(|a'.files[h.file]|)
  {
    SpaceLeft(|a.files[a.handles[fd].file]|, a.free, a.handles[fd].offset + Accepted(a, fd, |buf|));
  }
}
