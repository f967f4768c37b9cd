/** The operations of kernel/fs.c as functions of the decoded disk and the descriptor table.
    A file name is the bytes before the terminating NUL. */
module FsSpec {
  import opened Bits
  import opened FsLayout

  const MAX_OPEN := 16

  datatype Desc = Desc(inode: nat, offset: nat, valid: bool)
  datatype Fs = Fs(disk: Disk, fds: seq<Desc>)

  type Name = seq<byte>

  // ---- C strings in fixed fields -------------------------------------------------------

  function CString(s: seq<byte>): (r: Name)
    ensures |r| <= |s| && r == s[..|r|] && 0 !in r
    ensures |r| < |s| ==> s[|r|] == 0
  {
    if s == [] || s[0] == 0 then [] else [s[0]] + CString(s[1..])
  }

  function Zeros(n: nat): (r: seq<byte>)
    ensures |r| == n && forall i :: 0 <= i < n ==> r[i] == 0
  {
    seq(n, i => 0)
  }

  function Padded(name: Name): (r: seq<byte>)
    requires |name| < NAME_LEN
    ensures |r| == NAME_LEN
  {
    name + Zeros(NAME_LEN - |name|)
  }

  lemma {:induction false} CStringIs(s: seq<byte>, n: nat)
    requires n < |s| && s[n] == 0 && 0 !in s[..n]
    ensures CString(s) == s[..n]
  {
    if n > 0 {
      assert s[0] == s[..n][0];
      assert s[1..][..n - 1] == s[..n][1..];
      CStringIs(s[1..], n - 1);
    }
  }

  predicate GoodName(name: Name) {
    0 < |name| < NAME_LEN
  }

  // ---- Directory searches --------------------------------------------------------------

  function NameAt(dir: seq<DirEntry>, e: nat): Name
    requires e < |dir|
  {
    CString(dir[e].name)
  }

  predicate Named(dir: seq<DirEntry>, e: nat, name: Name)
    requires e < |dir|
  {
    dir[e].inode != 0 && NameAt(dir, e) == name
  }

  function FindName(dir: seq<DirEntry>, name: Name, from: nat): (e: nat)
    requires from <= |dir|
    ensures from <= e <= |dir|
    ensures e < |dir| ==> Named(dir, e, name)
    ensures forall f :: from <= f < e ==> !Named(dir, f, name)
    decreases |dir| - from
  {
    if from == |dir| || Named(dir, from, name) then from else FindName(dir, name, from + 1)
  }

  /** The inode of the first live entry of that name, or 0. */
  function FindInode(dir: seq<DirEntry>, name: Name): nat {
    var e := FindName(dir, name, 0);
    if e < |dir| then dir[e].inode else 0
  }

  /** The first entry holding inode number i; with i = 0, the first unused entry. */
  function FindEntry(dir: seq<DirEntry>, i: nat, from: nat): (e: nat)
    requires from <= |dir|
    ensures from <= e <= |dir|
    ensures e < |dir| ==> dir[e].inode == i
    ensures forall f :: from <= f < e ==> dir[f].inode != i
    decreases |dir| - from
  {
    if from == |dir| || dir[from].inode == i then from else FindEntry(dir, i, from + 1)
  }

  // ---- Allocation ----------------------------------------------------------------------

  /** 32-bit unsigned counters wrap. */
  function Dec32(x: nat): nat { if x == 0 then 0xFFFF_FFFF else x - 1 }
  function Inc32(x: nat): nat { if x >= 0xFFFF_FFFF then 0 else x + 1 }

  function AllocBlock(d: Disk): (r: (Disk, nat))
    requires Shaped(d)
    ensures Shaped(r.0) && r.0.inodes == d.inodes && r.0.data == d.data
    ensures r.1 == 0 ==> r.0 == d
    ensures r.1 == 0 || DATA_START <= r.1 < TOTAL_BLOCKS
  {
    var b := FirstClear(d.blockBits, 0);
    if b < DATA_BLOCKS then
      (d.(blockBits := d.blockBits[b := true], freeBlocks := Dec32(d.freeBlocks)), DATA_START + b)
    else (d, 0)
  }

  function FreeBlock(d: Disk, b: nat): (r: Disk)
    requires Shaped(d)
    ensures Shaped(r) && r.dir == d.dir && r.inodes == d.inodes
  {
    if b < DATA_START || b >= TOTAL_BLOCKS || !d.blockBits[b - DATA_START] then d
    else d.(blockBits := d.blockBits[b - DATA_START := false], freeBlocks := Inc32(d.freeBlocks))
  }

  function FreeBlocks(d: Disk, bs: seq<nat>): (r: Disk)
    requires Shaped(d)
    ensures Shaped(r) && r.dir == d.dir && r.inodes == d.inodes
    decreases |bs|
  {
    if bs == [] then d else FreeBlocks(if bs[0] != 0 then FreeBlock(d, bs[0]) else d, bs[1..])
  }

  function AllocInode(d: Disk): (r: (Disk, nat))
    requires Shaped(d)
    ensures Shaped(r.0) && r.1 < MAX_INODES
    ensures r.1 == 0 ==> r.0 == d
  {
    var i := FirstClear(d.inodeBits, 1);
    if i < MAX_INODES then
      (d.(inodeBits := d.inodeBits[i := true], freeInodes := Dec32(d.freeInodes),
          inodes := d.inodes[i := Inode(0, NO_BLOCKS)]), i)
    else (d, 0)
  }

  function FreeInode(d: Disk, i: nat): (r: Disk)
    requires Shaped(d)
    ensures Shaped(r) && r.dir == d.dir
  {
    if i == 0 || i >= MAX_INODES || !d.inodeBits[i] then d
    else d.(inodeBits := d.inodeBits[i := false], freeInodes := Inc32(d.freeInodes))
  }

  // ---- Operations ----------------------------------------------------------------------

  predicate FsShaped(fs: Fs) {
    Shaped(fs.disk) && |fs.fds| == MAX_OPEN
  }

  function Create(d: Disk, name: Name): (r: (Disk, int))
    requires Shaped(d)
    ensures Shaped(r.0)
  {
    var e := FindEntry(d.dir, 0, 0);
    var (d', i) := AllocInode(d);
    if !GoodName(name) || FindInode(d.dir, name) != 0 || e == DIR_ENTRIES || i == 0 then (d, -1)
    else (d'.(dir := d'.dir[e := DirEntry(Padded(name), i)]), 0)
  }

  function FindFreeFd(fds: seq<Desc>, from: nat): (fd: nat)
    requires from <= |fds|
    ensures from <= fd <= |fds|
    ensures fd < |fds| ==> !fds[fd].valid
    ensures forall f :: from <= f < fd ==> fds[f].valid
    decreases |fds| - from
  {
    if from == |fds| || !fds[from].valid then from else FindFreeFd(fds, from + 1)
  }

  function Open(fs: Fs, name: Name, create: bool): (r: (Fs, int))
    requires FsShaped(fs)
    ensures FsShaped(r.0)
  {
    var made := FindInode(fs.disk.dir, name) == 0 && create;
    var (d, rc) := if made then Create(fs.disk, name) else (fs.disk, 0);
    var i := FindInode(d.dir, name);
    var fd: int := FindFreeFd(fs.fds, 0);
    if rc != 0 || i == 0 || fd == MAX_OPEN then (fs.(disk := d), -1)
    else (Fs(d, fs.fds[fd := Desc(i, 0, true)]), fd)
  }

  predicate ValidFd(fs: Fs, fd: int) {
    0 <= fd < |fs.fds| && fs.fds[fd].valid
  }

  function Close(fs: Fs, fd: int): (r: (Fs, int))
    requires FsShaped(fs)
    ensures FsShaped(r.0)
  {
    if !ValidFd(fs, fd) then (fs, -1) else (fs.(fds := fs.fds[fd := fs.fds[fd].(valid := false)]), 0)
  }

  /** The pointers of this inode stay inside the data area. */
  predicate Mapped(ino: Inode) {
    && |ino.blocks| == DIRECT_BLOCKS
    && (forall k :: 0 <= k < DIRECT_BLOCKS ==> ino.blocks[k] == 0 || DATA_START <= ino.blocks[k] < TOTAL_BLOCKS)
  }

  /** Every byte below the size has a block. */
  predicate Backed(ino: Inode) {
    && Mapped(ino) && ino.size <= MAX_FILE_SIZE
    && (forall k :: 0 <= k < DIRECT_BLOCKS && k * BLOCK_SIZE < ino.size ==> ino.blocks[k] != 0)
  }

  /** The byte at position p of a file. */
  function ByteAt(ino: Inode, data: seq<seq<byte>>, p: nat): byte
    requires Backed(ino) && p < ino.size
    requires |data| == DATA_BLOCKS && forall b :: 0 <= b < DATA_BLOCKS ==> |data[b]| == BLOCK_SIZE
  {
    data[ino.blocks[p / BLOCK_SIZE] - DATA_START][p % BLOCK_SIZE]
  }

  function Content(d: Disk, i: nat): (r: seq<byte>)
    requires Shaped(d) && i < MAX_INODES && Backed(d.inodes[i])
    ensures |r| == d.inodes[i].size
    ensures forall p :: 0 <= p < |r| ==> r[p] == ByteAt(d.inodes[i], d.data, p)
  {
    seq(d.inodes[i].size, p requires 0 <= p < d.inodes[i].size => ByteAt(d.inodes[i], d.data, p))
  }

  predicate FdBacked(fs: Fs, fd: int) {
    FsShaped(fs) && ValidFd(fs, fd) && fs.fds[fd].inode < MAX_INODES && Backed(fs.disk.inodes[fs.fds[fd].inode])
  }

  function Min(a: int, b: int): int { if a < b then a else b }
  function Max(a: int, b: int): int { if a < b then b else a }

  /** What a read delivers; `None` for a bad descriptor. Only the offset moves. */
  function Read(fs: Fs, fd: int, count: nat): (r: (Fs, seq<byte>, int))
    requires FsShaped(fs)
    requires ValidFd(fs, fd) ==> FdBacked(fs, fd)
    ensures FsShaped(r.0)
  {
    if !ValidFd(fs, fd) then (fs, [], -1)
    else
      var desc := fs.fds[fd];
      var content := Content(fs.disk, desc.inode);
      if count == 0 || desc.offset >= |content| then (fs, [], 0)
      else
        var n := Min(count, |content| - desc.offset);
        (fs.(fds := fs.fds[fd := desc.(offset := desc.offset + n)]), content[desc.offset..desc.offset + n], n)
  }

  predicate FdMapped(fs: Fs, fd: int) {
    FsShaped(fs) && ValidFd(fs, fd) && fs.fds[fd].inode < MAX_INODES && Mapped(fs.disk.inodes[fs.fds[fd].inode])
  }

  /** Bytes left in the block the descriptor stands in. */
  function Room(fs: Fs, fd: int): (r: nat)
    requires ValidFd(fs, fd)
    ensures 0 < r <= BLOCK_SIZE
  {
    BLOCK_SIZE - fs.fds[fd].offset % BLOCK_SIZE
  }

  /** One pass of the write loop: a chunk that fits in the current block, allocating the block
      if the inode has none there. Fails, changing nothing, past the eighth block or on a full disk. */
  function WriteChunk(fs: Fs, fd: int, bs: seq<byte>): (r: (Fs, bool))
    requires FdMapped(fs, fd) && |bs| <= Room(fs, fd)
    ensures FdMapped(r.0, fd)
    ensures !r.1 ==> r.0 == fs
  {
    var desc := fs.fds[fd];
    var ino := fs.disk.inodes[desc.inode];
    var k := desc.offset / BLOCK_SIZE;
    if k >= DIRECT_BLOCKS then (fs, false)
    else
      var (d, b) := if ino.blocks[k] == 0 then AllocBlock(fs.disk) else (fs.disk, ino.blocks[k]);
      if b == 0 then (fs, false)
      else
        var end := desc.offset + |bs|;
        var d' := d.(data := d.data[b - DATA_START := Store(d.data[b - DATA_START], desc.offset % BLOCK_SIZE, bs)],
                     inodes := d.inodes[desc.inode := Inode(Max(ino.size, end), ino.blocks[k := b])]);
        (Fs(d', fs.fds[fd := desc.(offset := end)]), true)
  }

  function WriteLoop(fs: Fs, fd: int, buf: seq<byte>): (r: (Fs, nat))
    requires FdMapped(fs, fd)
    ensures FdMapped(r.0, fd)
    decreases |buf|
  {
    if buf == [] then (fs, 0)
    else
      var n := Min(Room(fs, fd), |buf|);
      var (fs', ok) := WriteChunk(fs, fd, buf[..n]);
      if !ok then (fs, 0)
      else
        var (last, m) := WriteLoop(fs', fd, buf[n..]);
        (last, n + m)
  }

  function Write(fs: Fs, fd: int, buf: seq<byte>): (r: (Fs, int))
    requires FsShaped(fs)
    requires ValidFd(fs, fd) ==> FdMapped(fs, fd)
    ensures FsShaped(r.0)
  {
    if !ValidFd(fs, fd) then (fs, -1)
    else
      var (last, n: int) := WriteLoop(fs, fd, buf);
      (last, n)
  }

  function Unlink(fs: Fs, name: Name): (r: (Fs, int))
    requires FsShaped(fs)
    requires forall e :: 0 <= e < DIR_ENTRIES ==> fs.disk.dir[e].inode < MAX_INODES
    ensures FsShaped(r.0)
  {
    var d := fs.disk;
    var i := FindInode(d.dir, name);
    if i == 0 then (fs, -1)
    else
      var d' := FreeInode(FreeBlocks(d, d.inodes[i].blocks), i);
      var e := FindEntry(d.dir, i, 0);
      (fs.(disk := d'.(dir := d.dir[e := DirEntry(d.dir[e].name[0 := 0], 0)])), 0)
  }

  function Formatted(): (d: Disk)
    ensures Shaped(d)
  {
    Disk([0x53454E47, TOTAL_BLOCKS, 32, DATA_BLOCKS], DATA_BLOCKS, MAX_INODES - 1,
         seq(DIR_ENTRIES, e => DirEntry(Zeros(NAME_LEN), 0)),
         seq(DATA_BLOCKS, b => false), seq(MAX_INODES, i => false),
         seq(MAX_INODES, i => Inode(0, NO_BLOCKS)), seq(DATA_BLOCKS, b => Zeros(BLOCK_SIZE)))
  }
}
