/** What a caller of the six operations sees, in plain terms: every answer, and all that changes in
    the files, the descriptors and the free space, for every consistent disk. */
module FsExact {
  import opened Bits
  import opened FsLayout
  import opened FsSpec
  import opened FsInv
  import opened FsPreserve
  import opened FsAbs
  import opened FsWrite
  import opened FsRuns

  /** The blocks a file of this size takes. */
  lemma BlocksNeeded(size: nat)
    ensures 4096 * BlocksFor(size) - 4096 < size <= 4096 * BlocksFor(size)
  {
  }

  /** Sixteen descriptors. */
  lemma Sixteen(fs: Fs)
    requires Inv(fs)
    ensures |Abs(fs).handles| == 16
  {
  }

  lemma CreateReply(fs: Fs, name: Name)
    requires Inv(fs) && 0 !in name
    ensures var (d, rc) := Create(fs.disk, name);
      && Inv(fs.(disk := d)) && var a, a' := Abs(fs), Abs(fs.(disk := d));
      && rc == (if 1 <= |name| <= 27 && name !in a.files && |a.files| < 128 then 0 else -1)
      && a' == if rc == 0 then a.(files := a.files[name := []]) else a
  {
    hide Inv;
    hide Abs;
    hide Create;
    CreateRefines(fs, name);
  }

  lemma {:induction false} FirstClosedLeast(hs: seq<Handle>, from: nat)
    requires from <= |hs|
    ensures var h := FirstClosed(hs, from);
      (h < |hs| ==> hs[h] == Closed) && forall g :: from <= g < h ==> hs[g].Handle?
    decreases |hs| - from
  {
    if from < |hs| && hs[from].Handle? {
      FirstClosedLeast(hs, from + 1);
    }
  }

  /** The answer is the least free descriptor, now at the start of the file; -1 if there is none, or
      no such file and none is made. Making it does not wait for a descriptor. */
  lemma OpenReply(fs: Fs, name: Name, create: bool)
    requires Inv(fs) && 0 !in name
    ensures var (fs', fd) := Open(fs, name, create);
      && Inv(fs') && var a, a' := Abs(fs), Abs(fs');
      var made := create && name !in a.files && 1 <= |name| <= 27 && |a.files| < 128;
      && |a.handles| == 16 && a'.free == a.free
      && a'.files == (if made then a.files[name := []] else a.files)
      && (fd == -1 <==> (name !in a.files && !made) || forall h :: 0 <= h < 16 ==> a.handles[h].Handle?)
      && (fd == -1 ==> a'.handles == a.handles)
      && (fd != -1 ==>
        && 0 <= fd < 16 && a.handles[fd] == Closed && (forall h :: 0 <= h < fd ==> a.handles[h].Handle?)
        && a'.handles == a.handles[fd := Handle(name, 0)])
  {
    hide Inv;
    hide Abs;
    hide Open;
    hide FirstClosed;
    OpenRefines(fs, name, create);
    Sixteen(fs);
    FirstClosedLeast(Abs(fs).handles, 0);
  }

  lemma CloseReply(fs: Fs, fd: int)
    requires Inv(fs)
    ensures var (fs', rc) := Close(fs, fd);
      && Inv(fs') && var a, a' := Abs(fs), Abs(fs');
      && |a.handles| == 16
      && rc == (if 0 <= fd < 16 && a.handles[fd].Handle? then 0 else -1)
      && a' == if rc == 0 then a.(handles := a.handles[fd := Closed]) else a
  {
    hide Inv;
    hide Abs;
    hide Close;
    CloseRefines(fs, fd);
    Sixteen(fs);
  }

  /** The bytes from the offset on, as many as asked for and there are; the offset moves past them. */
  lemma ReadReply(fs: Fs, fd: int, count: nat)
    requires Inv(fs)
    ensures ValidFd(fs, fd) ==> FdBacked(fs, fd)
    ensures var (fs', bytes, n) := Read(fs, fd, count);
      && Inv(fs') && var a, a' := Abs(fs), Abs(fs');
      && |a.handles| == 16
      && if 0 <= fd < 16 && a.handles[fd].Handle?
         then
           var h := a.handles[fd];
           && h.file in a.files && var c := a.files[h.file];
           && h.offset <= |c| && n == (if count < |c| - h.offset then count else |c| - h.offset)
           && bytes == c[h.offset..h.offset + n]
           && a' == a.(handles := a.handles[fd := Handle(h.file, h.offset + n)])
         else n == -1 && bytes == [] && a' == a
  {
    hide Inv;
    hide Abs;
    hide Read;
    hide FdBacked;
    ReadRefines(fs, fd, count);
    Sixteen(fs);
  }

  lemma AbsOpen(fs: Fs, fd: int)
    requires Inv(fs) && 0 <= fd < 16 && |Abs(fs).handles| == 16 && Abs(fs).handles[fd].Handle?
    ensures Sound(Abs(fs)) && IsOpen(Abs(fs), fd)
    ensures var h := Abs(fs).handles[fd];
      h.file in Abs(fs).files && h.offset <= Capacity(|Abs(fs).files[h.file]|, Abs(fs).free)
  {
    hide Content;
    AbsSound(fs);
    AbsHandle(fs, fd);
    OffsetInCapacity(fs, fd);
  }

  /** As many bytes as fit below 32 KB and in the blocks the file has or can still get; they replace
      the file's bytes from the offset on. -1 only for a descriptor that is not open. */
  lemma WriteReply(fs: Fs, fd: int, buf: seq<byte>)
    requires Inv(fs)
    ensures ValidFd(fs, fd) ==> FdMapped(fs, fd)
    ensures var (fs', n) := Write(fs, fd, buf);
      && Inv(fs') && var a, a' := Abs(fs), Abs(fs');
      && |a.handles| == 16
      && if 0 <= fd < 16 && a.handles[fd].Handle?
         then
           var h := a.handles[fd];
           && h.file in a.files && var c := a.files[h.file];
           var room := Min(32768, ((|c| + 4095) / 4096 + a.free) * 4096) - h.offset;
           && h.offset <= |c| && 0 <= n == Min(|buf|, room)
           && var c' := c[..h.offset] + buf[..n] + if h.offset + n < |c| then c[h.offset + n..] else [];
           && a'.files == a.files[h.file := c']
           && a'.handles == a.handles[fd := Handle(h.file, h.offset + n)]
           && a'.free == a.free + (|c| + 4095) / 4096 - (|c'| + 4095) / 4096
         else n == -1 && a' == a
  {
    hide Inv;
    hide Abs;
    hide Write;
    hide FdMapped;
    hide Capacity;
    WriteRefines(fs, fd, buf);
    Sixteen(fs);
    var a := Abs(fs);
    if 0 <= fd < 16 && a.handles[fd].Handle? {
      AbsOpen(fs, fd);
      AWriteExact(a, fd, buf);
      CapacityIs(|a.files[a.handles[fd].file]|, a.free);
    }
  }

  lemma UnlinkReply(fs: Fs, name: Name)
    requires Inv(fs) && (FindInode(fs.disk.dir, name) != 0 ==> Unlinkable(fs, name))
    ensures forall e :: 0 <= e < DIR_ENTRIES ==> fs.disk.dir[e].inode < MAX_INODES
    ensures var (fs', rc) := Unlink(fs, name);
      && Inv(fs') && var a, a' := Abs(fs), Abs(fs');
      && rc == (if name in a.files then 0 else -1)
      && a'.handles == a.handles && a'.files == a.files - {name}
      && a'.free == a.free + if name in a.files then (|a.files[name]| + 4095) / 4096 else 0
  {
    hide Inv;
    hide Abs;
    hide Unlink;
    hide FindInode;
    UnlinkRefines(fs, name);
  }

  /** The disk that fs_init writes: the superblock, no file, all 220 data blocks and 1023 inodes free. */
  lemma FormattedAs()
    ensures var d := Formatted();
      && d.header == [0x53454E47, 256, 32, 220] && d.freeBlocks == 220 && d.freeInodes == 1023
      && |d.dir| == 128 && (forall e :: 0 <= e < 128 ==> d.dir[e].inode == 0)
      && |d.blockBits| == 220 && (forall b :: 0 <= b < 220 ==> !d.blockBits[b])
      && |d.inodeBits| == 1024 && (forall i :: 0 <= i < 1024 ==> !d.inodeBits[i])
      && |d.data| == 220 && forall b :: 0 <= b < 220 ==> |d.data[b]| == 4096
  {
  }
}
