/** kernel/fs.c over its one byte array and its descriptor table. Each function is proved to do
    what FsSpec says, on the decoded disk. */
module FileSystem {
  import opened Bits
  import opened FsLayout
  import opened FsSpec
  import opened FsInv
  import opened FsPreserve
  import opened CStrings

  const U32 := 0x1_0000_0000

  class RamDisk {
    const ramdisk: array<byte>
    const openFiles: array<Desc>

    constructor ()
      ensures Shape() && fresh(ramdisk) && fresh(openFiles)
    {
      ramdisk := new byte[DISK_SIZE];
      openFiles := new Desc[MAX_OPEN](_ => Desc(0, 0, false));
    }

    ghost predicate Shape() reads this {
      ramdisk.Length == DISK_SIZE && openFiles.Length == MAX_OPEN && ramdisk as object != openFiles
    }

    /** A caller's buffer: not the RAM disk, not the descriptor table. */
    ghost predicate Outside(p: array<byte>) {
      p != ramdisk && p as object != openFiles
    }

    ghost function Now(): (d: Disk)
      requires Shape()
      reads this, ramdisk
      ensures Shaped(d)
    {
      Decode(ramdisk[..])
    }

    ghost function State(): (fs: Fs)
      requires Shape()
      reads this, ramdisk, openFiles
      ensures FsShaped(fs)
    {
      Fs(Now(), openFiles[..])
    }

    ghost predicate Valid()
      reads this, ramdisk, openFiles
    {
      Shape() && Inv(State())
    }

    // ---- Raw access ----------------------------------------------------------------------

    method Load(a: nat) returns (v: nat)
      requires Shape() && a + 4 <= DISK_SIZE
      ensures v == Word(ramdisk[..], a) < U32
    {
      v := ramdisk[a] as int + 0x100 * ramdisk[a + 1] as int + 0x1_0000 * ramdisk[a + 2] as int
        + 0x100_0000 * ramdisk[a + 3] as int;
    }

    method Put(a: nat, v: nat)
      requires Shape() && a + 4 <= DISK_SIZE && v < U32
      modifies ramdisk
      ensures ramdisk[..] == Store(old(ramdisk[..]), a, Encode(v))
    {
      ramdisk[a] := (v % 0x100) as byte;
      ramdisk[a + 1] := (v / 0x100 % 0x100) as byte;
      ramdisk[a + 2] := (v / 0x1_0000 % 0x100) as byte;
      ramdisk[a + 3] := (v / 0x100_0000) as byte;
    }

    method PutByte(a: nat, b: byte)
      requires Shape() && a < DISK_SIZE
      modifies ramdisk
      ensures ramdisk[..] == Store(old(ramdisk[..]), a, [b])
    {
      ramdisk[a] := b;
    }

    // ---- Fields --------------------------------------------------------------------------

    method FreeBlocksCount() returns (v: nat)
      requires Shape()
      ensures v == Now().freeBlocks < U32
    {
      v := Load(FREE_BLOCKS_ADDR);
    }

    method FreeInodesCount() returns (v: nat)
      requires Shape()
      ensures v == Now().freeInodes < U32
    {
      v := Load(FREE_INODES_ADDR);
    }

    method SetFreeBlocks(v: nat)
      requires Shape() && v < U32
      modifies ramdisk
      ensures Now() == old(Now()).(freeBlocks := v)
    {
      StoreFreeBlocks(ramdisk[..], v);
      Put(FREE_BLOCKS_ADDR, v);
    }

    method SetFreeInodes(v: nat)
      requires Shape() && v < U32
      modifies ramdisk
      ensures Now() == old(Now()).(freeInodes := v)
    {
      StoreFreeInodes(ramdisk[..], v);
      Put(FREE_INODES_ADDR, v);
    }

    method BlockBit(i: nat) returns (v: bool)
      requires Shape() && i < DATA_BLOCKS
      ensures v == Now().blockBits[i]
    {
      v := TestBit(ramdisk[BLOCK_BITMAP_ADDR + i / 8], i % 8);
    }

    method SetBlockBit(i: nat, v: bool)
      requires Shape() && i < DATA_BLOCKS
      modifies ramdisk
      ensures Now() == old(Now()).(blockBits := old(Now()).blockBits[i := v])
    {
      hide Decode;
      StoreBlockBit(ramdisk[..], i, v);
      var b := ramdisk[BLOCK_BITMAP_ADDR + i / 8];
      PutByte(BLOCK_BITMAP_ADDR + i / 8, if v then SetBit(b, i % 8) else ClearBit(b, i % 8));
    }

    method InodeBit(i: nat) returns (v: bool)
      requires Shape() && i < MAX_INODES
      ensures v == Now().inodeBits[i]
    {
      v := TestBit(ramdisk[INODE_BITMAP_ADDR + i / 8], i % 8);
    }

    method SetInodeBit(i: nat, v: bool)
      requires Shape() && i < MAX_INODES
      modifies ramdisk
      ensures Now() == old(Now()).(inodeBits := old(Now()).inodeBits[i := v])
    {
      hide Decode;
      StoreInodeBit(ramdisk[..], i, v);
      var b := ramdisk[INODE_BITMAP_ADDR + i / 8];
      PutByte(INODE_BITMAP_ADDR + i / 8, if v then SetBit(b, i % 8) else ClearBit(b, i % 8));
    }

    method Size(i: nat) returns (v: nat)
      requires Shape() && i < MAX_INODES
      ensures v == Now().inodes[i].size < U32
    {
      v := Load(InodeAddr(i));
    }

    method SetSize(i: nat, v: nat)
      requires Shape() && i < MAX_INODES && v < U32
      modifies ramdisk
      ensures Now() == old(Now()).(inodes := old(Now()).inodes[i := old(Now()).inodes[i].(size := v)])
    {
      hide Decode;
      StoreInodeSize(ramdisk[..], i, v);
      Put(InodeAddr(i), v);
    }

    method Pointer(i: nat, k: nat) returns (v: nat)
      requires Shape() && i < MAX_INODES && k < DIRECT_BLOCKS
      ensures v == Now().inodes[i].blocks[k]
    {
      v := Load(InodeAddr(i) + 4 + 4 * k);
    }

    method SetPointer(i: nat, k: nat, v: nat)
      requires Shape() && i < MAX_INODES && k < DIRECT_BLOCKS && v < U32
      modifies ramdisk
      ensures var ino := old(Now()).inodes[i];
        Now() == old(Now()).(inodes := old(Now()).inodes[i := ino.(blocks := ino.blocks[k := v])])
    {
      hide Decode;
      StoreInodeBlock(ramdisk[..], i, k, v);
      Put(InodeAddr(i) + 4 + 4 * k, v);
    }

    method DirInode(e: nat) returns (v: nat)
      requires Shape() && e < DIR_ENTRIES
      ensures v == Now().dir[e].inode
    {
      v := Load(DirEntryAddr(e) + NAME_LEN);
    }

    method SetDirInode(e: nat, v: nat)
      requires Shape() && e < DIR_ENTRIES && v < U32
      modifies ramdisk
      ensures Now() == old(Now()).(dir := old(Now()).dir[e := old(Now()).dir[e].(inode := v)])
    {
      hide Decode;
      StoreDirInode(ramdisk[..], e, v);
      Put(DirEntryAddr(e) + NAME_LEN, v);
    }

    method SetNameByte(e: nat, off: nat, b: byte)
      requires Shape() && e < DIR_ENTRIES && off < NAME_LEN
      modifies ramdisk
      ensures Now() == old(Now()).(dir := old(Now()).dir[e := old(Now()).dir[e].(name := Store(old(Now()).dir[e].name, off, [b]))])
    {
      hide Decode;
      StoreDirName(ramdisk[..], e, off, [b]);
      PutByte(DirEntryAddr(e) + off, b);
    }

    method CopyName(e: nat, filename: array<byte>, n: nat)
      requires Shape() && e < DIR_ENTRIES && n <= NAME_LEN && filename != ramdisk && 0 in filename[..]
      modifies ramdisk
      ensures Now() == old(Now()).(dir := old(Now()).dir[e := old(Now()).dir[e].(name :=
        Store(old(Now()).dir[e].name, 0, Ncpy(CString(filename[..]), n)))])
    {
      hide Decode;
      StoreDirName(ramdisk[..], e, 0, Ncpy(CString(filename[..]), n));
      Strncpy(ramdisk, DirEntryAddr(e), filename, n);
    }

    /** Is the live entry's name this one? */
    method NameIs(e: nat, filename: array<byte>) returns (same: bool)
      requires Shape() && e < DIR_ENTRIES && 0 in filename[..]
      requires |NameAt(Now().dir, e)| < NAME_LEN
      ensures same == (NameAt(Now().dir, e) == CString(filename[..]))
    {
      ghost var a := DirEntryAddr(e);
      ghost var field := ramdisk[a..a + NAME_LEN];
      assert field == Now().dir[e].name;
      assert ramdisk[a..] == field + ramdisk[a + NAME_LEN..];
      FieldString(field, ramdisk[a + NAME_LEN..]);
      var r := Strcmp(ramdisk, DirEntryAddr(e), filename);
      same := r == 0;
    }

    method ClearInodeRecord(i: nat)
      requires Shape() && i < MAX_INODES
      modifies ramdisk
      ensures Now() == old(Now()).(inodes := old(Now()).inodes[i := Inode(0, NO_BLOCKS)])
    {
      hide Decode;
      ClearInode(ramdisk[..], i, Zeros(INODE_SIZE));
      Memset(ramdisk, InodeAddr(i), 0, INODE_SIZE);
      assert ramdisk[..] == Store(old(ramdisk[..]), InodeAddr(i), Zeros(INODE_SIZE));
    }

    method CopyIn(b: nat, off: nat, buffer: array<byte>, from: nat, n: nat)
      requires Shape() && DATA_START <= b < TOTAL_BLOCKS && off + n <= BLOCK_SIZE
      requires buffer != ramdisk && from + n <= buffer.Length
      modifies ramdisk
      ensures var x := b - DATA_START;
        Now() == old(Now()).(data := old(Now()).data[x := Store(old(Now()).data[x], off, buffer[from..from + n])])
    {
      hide Decode;
      StoreData(ramdisk[..], b - DATA_START, off, buffer[from..from + n]);
      Memcpy(ramdisk, BlockAddr(b) + off, buffer, from, n);
    }

    method CopyOut(b: nat, off: nat, buffer: array<byte>, at: nat, n: nat)
      requires Shape() && DATA_START <= b < TOTAL_BLOCKS && off + n <= BLOCK_SIZE
      requires Outside(buffer) && at + n <= buffer.Length
      modifies buffer
      ensures buffer[..] == Store(old(buffer[..]), at, Now().data[b - DATA_START][off..off + n])
    {
      hide Decode;
      hide Store;
      BlockSlice(ramdisk[..], b - DATA_START, off, n);
      assert ramdisk[BlockAddr(b) + off..BlockAddr(b) + off + n] == ramdisk[..][BlockAddr(b) + off..BlockAddr(b) + off + n];
      Memcpy(buffer, at, ramdisk, BlockAddr(b) + off, n);
    }

    // ---- Allocation ----------------------------------------------------------------------

    method FsAllocBlock() returns (b: nat)
      requires Shape()
      modifies ramdisk
      ensures (Now(), b) == AllocBlock(old(Now()))
    {
      hide Decode;
      var i := 0;
      while i < DATA_BLOCKS
        invariant 0 <= i <= DATA_BLOCKS && Now() == old(Now())
        invariant forall j :: 0 <= j < i ==> Now().blockBits[j]
      {
        var used := BlockBit(i);
        if !used {
          FirstClearIs(Now().blockBits, 0, i);
          SetBlockBit(i, true);
          var free := FreeBlocksCount();
          SetFreeBlocks(Dec32(free));
          return DATA_START + i;
        }
        i := i + 1;
      }
      FirstClearIs(Now().blockBits, 0, DATA_BLOCKS);
      return 0;
    }

    method FsFreeBlock(b: nat)
      requires Shape()
      modifies ramdisk
      ensures Now() == FreeBlock(old(Now()), b)
    {
      hide Decode;
      if b < DATA_START || b >= TOTAL_BLOCKS {
        return;
      }
      var used := BlockBit(b - DATA_START);
      if used {
        SetBlockBit(b - DATA_START, false);
        var free := FreeBlocksCount();
        SetFreeBlocks(Inc32(free));
      }
    }

    method FsAllocInode() returns (i: nat)
      requires Shape()
      modifies ramdisk
      ensures (Now(), i) == AllocInode(old(Now()))
    {
      hide Decode;
      i := 1;
      while i < MAX_INODES
        invariant 1 <= i <= MAX_INODES && Now() == old(Now())
        invariant forall j :: 1 <= j < i ==> Now().inodeBits[j]
      {
        var used := InodeBit(i);
        if !used {
          FirstClearIs(Now().inodeBits, 1, i);
          SetInodeBit(i, true);
          var free := FreeInodesCount();
          SetFreeInodes(Dec32(free));
          ClearInodeRecord(i);
          return;
        }
        i := i + 1;
      }
      FirstClearIs(Now().inodeBits, 1, MAX_INODES);
      i := 0;
    }

    method FsFreeInode(i: nat)
      requires Shape()
      modifies ramdisk
      ensures Now() == FreeInode(old(Now()), i)
    {
      hide Decode;
      if i == 0 || i >= MAX_INODES {
        return;
      }
      var used := InodeBit(i);
      if used {
        SetInodeBit(i, false);
        var free := FreeInodesCount();
        SetFreeInodes(Inc32(free));
      }
    }

    // ---- Searches ------------------------------------------------------------------------

    method FsFindInode(filename: array<byte>) returns (i: nat)
      requires Valid() && 0 in filename[..]
      ensures i == FindInode(Now().dir, CString(filename[..]))
    {
      hide Decode;
      var e := 0;
      while e < DIR_ENTRIES
        invariant 0 <= e <= DIR_ENTRIES
        invariant FindName(Now().dir, CString(filename[..]), 0) == FindName(Now().dir, CString(filename[..]), e)
      {
        var inode := DirInode(e);
        if inode != 0 {
          assert EntryOk(Now(), e);
          var same := NameIs(e, filename);
          if same {
            return inode;
          }
        }
        e := e + 1;
      }
      return 0;
    }

    method FsFindFreeDirEntry() returns (r: int)
      requires Shape()
      ensures var e := FindEntry(Now().dir, 0, 0); e <= DIR_ENTRIES && r == if e < DIR_ENTRIES then e else -1
    {
      hide Decode;
      var e := 0;
      while e < DIR_ENTRIES
        invariant 0 <= e <= DIR_ENTRIES && FindEntry(Now().dir, 0, 0) == FindEntry(Now().dir, 0, e)
      {
        var inode := DirInode(e);
        if inode == 0 {
          return e;
        }
        e := e + 1;
      }
      return -1;
    }

    method FsFindFreeFd() returns (r: int)
      requires Shape()
      ensures var fd := FindFreeFd(openFiles[..], 0); r == if fd < MAX_OPEN then fd else -1
    {
      var fd := 0;
      while fd < MAX_OPEN
        invariant 0 <= fd <= MAX_OPEN && FindFreeFd(openFiles[..], 0) == FindFreeFd(openFiles[..], fd)
      {
        if !openFiles[fd].valid {
          return fd;
        }
        fd := fd + 1;
      }
      return -1;
    }

    // ---- Public operations ---------------------------------------------------------------

    method FsInit()
      requires Shape()
      modifies ramdisk, openFiles
      ensures Valid() && Now() == Formatted()
      ensures forall fd :: 0 <= fd < MAX_OPEN ==> !openFiles[fd].valid
    {
      hide Decode;
      hide Formatted;
      hide Shaped;
      hide Inv;
      Format();
      var fd := 0;
      while fd < MAX_OPEN
        invariant 0 <= fd <= MAX_OPEN
        invariant forall g :: 0 <= g < fd ==> !openFiles[g].valid
        modifies openFiles
      {
        openFiles[fd] := openFiles[fd].(valid := false);
        fd := fd + 1;
      }
      FormattedInv(State());
    }

    method Format()
      requires Shape()
      modifies ramdisk
      ensures Now() == Formatted()
    {
      hide Decode;
      hide Word;
      Memset(ramdisk, 0, 0, DISK_SIZE);
      ghost var zeros := ramdisk[..];
      Put(0, 0x53454E47);
      Put(4, TOTAL_BLOCKS);
      Put(8, 32);
      Put(12, DATA_BLOCKS);
      Put(FREE_BLOCKS_ADDR, DATA_BLOCKS);
      Put(FREE_INODES_ADDR, MAX_INODES - 1);
      SuperblockWords(zeros);
      FormattedDisk(ramdisk[..]);
    }

    method FsCreateFile(filename: array?<byte>) returns (rc: int)
      requires Valid()
      requires filename != null ==> Outside(filename) && 0 in filename[..]
      modifies ramdisk
      ensures Valid()
      ensures filename == null ==> rc == -1 && Now() == old(Now())
      ensures filename != null ==> (Now(), rc) == Create(old(Now()), CString(filename[..]))
    {
      hide Decode;
      hide Shaped;
      hide Inv;
      hide AllocInode;
      hide CString;
      if filename == null {
        return -1;
      }
      ghost var name := CString(filename[..]);
      var len := Strlen(filename);
      if len == 0 || len >= NAME_LEN {
        return -1;
      }
      var existing := FsFindInode(filename);
      if existing != 0 {
        return -1;
      }
      var e := FsFindFreeDirEntry();
      if e < 0 {
        return -1;
      }
      var i := FsAllocInode();
      if i == 0 {
        return -1;
      }
      FillEntry(e, filename, i);
      CreateInv(old(State()), name);
      assert State() == old(State()).(disk := Now());
      return 0;
    }

    method FillEntry(e: nat, filename: array<byte>, i: nat)
      requires Shape() && e < DIR_ENTRIES && i < U32
      requires filename != ramdisk && 0 in filename[..] && |CString(filename[..])| < NAME_LEN
      modifies ramdisk
      ensures Now() == old(Now()).(dir := old(Now()).dir[e := DirEntry(Padded(CString(filename[..])), i)])
    {
      hide Decode;
      ghost var name := CString(filename[..]);
      hide CString;
      CopyName(e, filename, NAME_LEN - 1);
      SetNameByte(e, NAME_LEN - 1, 0);
      SetDirInode(e, i);
      PadTwice(old(Now()).dir[e].name, name);
    }

    method FsOpen(filename: array?<byte>, create: bool) returns (r: int)
      requires Valid()
      requires filename != null ==> Outside(filename) && 0 in filename[..]
      modifies ramdisk, openFiles
      ensures Valid()
      ensures filename == null ==> r == -1 && State() == old(State())
      ensures filename != null ==> (State(), r) == Open(old(State()), CString(filename[..]), create)
    {
      hide Decode;
      hide Shaped;
      hide Inv;
      hide Create;
      hide CString;
      hide FindInode;
      hide FindFreeFd;
      if filename == null {
        return -1;
      }
      OpenInv(State(), CString(filename[..]), create);
      var i := FsFindInode(filename);
      if i == 0 && create {
        var rc := FsCreateFile(filename);
        if rc != 0 {
          return -1;
        }
        i := FsFindInode(filename);
      }
      if i == 0 {
        return -1;
      }
      var fd := FsFindFreeFd();
      if fd < 0 {
        return -1;
      }
      openFiles[fd] := Desc(i, 0, true);
      assert openFiles[..] == old(openFiles[..])[fd := Desc(i, 0, true)];
      return fd;
    }

    method FsClose(fd: int) returns (rc: int)
      requires Valid()
      modifies openFiles
      ensures Valid() && (State(), rc) == Close(old(State()), fd)
    {
      CloseInv(State(), fd);
      hide Inv;
      if fd < 0 || fd >= MAX_OPEN || !openFiles[fd].valid {
        return -1;
      }
      openFiles[fd] := openFiles[fd].(valid := false);
      return 0;
    }

    /** Caller and disk share one 32-bit address space, so `offset + count` cannot wrap. */
    method FsRead(fd: int, buffer: array?<byte>, count: nat) returns (r: int)
      requires Valid()
      requires buffer != null ==> Outside(buffer) && count <= buffer.Length && buffer.Length + DISK_SIZE <= U32
      modifies openFiles, buffer
      ensures Valid() && Now() == old(Now())
      ensures ValidFd(old(State()), fd) ==> FdBacked(old(State()), fd)
      ensures buffer == null ==> (State(), r) == (old(State()), if ValidFd(old(State()), fd) then 0 else -1)
      ensures buffer != null ==>
        var (fs, bytes, n) := Read(old(State()), fd, count);
        State() == fs && r == n && |bytes| <= count && buffer[..] == Store(old(buffer[..]), 0, bytes)
    {
      hide Decode;
      hide Shaped;
      hide Inv;
      hide FdBacked;
      hide Content;
      hide Read;
      ReadInv(State(), fd, count);
      ReadNothing(State(), fd, count);
      assert buffer != null ==> Store(buffer[..], 0, []) == buffer[..];
      if fd < 0 || fd >= MAX_OPEN || !openFiles[fd].valid {
        return -1;
      }
      ReadChunk(State(), fd, count);
      FdPlace(State(), fd);
      if buffer == null || count == 0 {
        return 0;
      }
      var i, offset := openFiles[fd].inode, openFiles[fd].offset;
      ContentSize(State(), fd);
      var size := Size(i);
      if offset >= size {
        return 0;
      }
      var n := count;
      if (offset + count) % U32 > size {
        n := size - offset;
      }
      r := ReadBlocks(fd, buffer, n);
    }

    /** The copy loop: never meets an unallocated block. */
    method ReadBlocks(fd: nat, buffer: array<byte>, count: nat) returns (r: nat)
      requires Shape() && FdBacked(State(), fd)
      requires Outside(buffer) && count <= buffer.Length
      requires openFiles[fd].offset + count <= |Content(Now(), openFiles[fd].inode)|
      modifies openFiles, buffer
      ensures r == count && State() == Advance(old(State()), fd, count)
      ensures buffer[..] == Store(old(buffer[..]), 0, Ahead(old(State()), fd, 0, count))
    {
      hide Decode;
      hide Content;
      hide Shaped;
      hide Store;
      hide FdBacked;
      hide Advance;
      hide Ahead;
      r := 0;
      ghost var fs0 := State();
      AdvanceFacts(fs0, fd, 0);
      assert fs0.fds[fd] == openFiles[fd];
      AheadMore(fs0, fd, 0, 0);
      StoreNothing(buffer[..]);
      while r < count
        invariant 0 <= r <= count
        invariant State() == Advance(fs0, fd, r)
        invariant buffer[..] == Store(old(buffer[..]), 0, Ahead(fs0, fd, 0, r))
      {
        AdvanceFacts(fs0, fd, r);
        assert openFiles[fd] == State().fds[fd];
        var n := BLOCK_SIZE - openFiles[fd].offset % BLOCK_SIZE;
        if n > count - r {
          n := count - r;
        }
        AheadMore(fs0, fd, r, n);
        var ok := ReadPass(fd, buffer, r, n);
        if !ok {
          break;
        }
        StoreTwice(old(buffer[..]), Ahead(fs0, fd, 0, r), Ahead(fs0, fd, r, n));
        r := r + n;
      }
    }

    /** One pass of the read loop. Its two exits, past the eighth block and at an unallocated one,
        are never taken below the end of a file. */
    method ReadPass(fd: nat, buffer: array<byte>, at: nat, n: nat) returns (ok: bool)
      requires Shape() && FdBacked(State(), fd) && Outside(buffer) && at + n <= buffer.Length
      requires 0 < n <= Room(State(), fd)
      requires openFiles[fd].offset + n <= |Content(Now(), openFiles[fd].inode)|
      modifies openFiles, buffer
      ensures ok && State() == Advance(old(State()), fd, n)
      ensures buffer[..] == Store(old(buffer[..]), at, Ahead(old(State()), fd, 0, n))
    {
      hide Decode;
      hide Content;
      hide Shaped;
      hide Store;
      hide Backed;
      var desc := openFiles[fd];
      ContentSize(State(), fd);
      BlockOfContent(Now(), desc.inode, desc.offset, n);
      var blockIndex := desc.offset / BLOCK_SIZE;
      var offsetInBlock := desc.offset % BLOCK_SIZE;
      if blockIndex >= DIRECT_BLOCKS {
        return false;
      }
      var b := Pointer(desc.inode, blockIndex);
      if b == 0 {
        return false;
      }
      CopyOut(b, offsetInBlock, buffer, at, n);
      openFiles[fd] := desc.(offset := desc.offset + n);
      assert openFiles[..] == old(openFiles[..])[fd := desc.(offset := desc.offset + n)];
      return true;
    }

    method FsWrite(fd: int, buffer: array?<byte>, count: nat) returns (r: int)
      requires Valid()
      requires buffer != null ==> Outside(buffer) && count <= buffer.Length
      modifies ramdisk, openFiles
      ensures Valid()
      ensures ValidFd(old(State()), fd) ==> FdMapped(old(State()), fd)
      ensures (State(), r) == Write(old(State()), fd, if buffer == null then [] else buffer[..count])
    {
      hide Decode;
      hide Shaped;
      hide Inv;
      hide FdMapped;
      if fd < 0 || fd >= MAX_OPEN || !openFiles[fd].valid {
        return -1;
      }
      OkBacked(State(), fd);
      if buffer == null || count == 0 {
        return 0;
      }
      r := WriteBlocks(fd, buffer, count);
    }

    /** The copy loop of a write. */
    method WriteBlocks(fd: nat, buffer: array<byte>, count: nat) returns (r: nat)
      requires Valid() && ValidFd(State(), fd) && FdMapped(State(), fd)
      requires Outside(buffer) && count <= buffer.Length
      modifies ramdisk, openFiles
      ensures Valid() && (State(), r) == WriteLoop(old(State()), fd, buffer[..count])
    {
      hide Decode;
      hide Shaped;
      hide Inv;
      hide WriteChunk;
      hide FdMapped;
      hide WriteLoop;
      ghost var fs0 := State();
      ghost var bytes := buffer[..count];
      r := 0;
      assert bytes[0..] == bytes;
      while r < count
        invariant 0 <= r <= count
        invariant Valid() && ValidFd(State(), fd) && FdMapped(State(), fd)
        invariant WriteLoop(fs0, fd, bytes) == (WriteLoop(State(), fd, bytes[r..]).0, r + WriteLoop(State(), fd, bytes[r..]).1)
      {
        var n := BLOCK_SIZE - openFiles[fd].offset % BLOCK_SIZE;
        if n > count - r {
          n := count - r;
        }
        ghost var todo := bytes[r..];
        assert todo[..n] == buffer[r..r + n] && todo[n..] == bytes[r + n..];
        WriteStep(State(), fd, todo);
        FdPlace(State(), fd);
        var ok := WritePass(fd, buffer, r, n);
        if !ok {
          return;
        }
        r := r + n;
      }
      assert bytes[r..] == [];
      WriteStop(State(), fd);
    }

    /** The block in slot k of inode i, allocated if there is none yet; 0 on a full disk. */
    method BlockFor(i: nat, k: nat) returns (b: nat)
      requires Shape() && i < MAX_INODES && k < DIRECT_BLOCKS
      modifies ramdisk
      ensures var d, ino := old(Now()), old(Now()).inodes[i];
        if ino.blocks[k] != 0 then Now() == d && b == ino.blocks[k]
        else
          var (d', b') := AllocBlock(d);
          b == b' && (b == 0 ==> Now() == d) &&
          (b != 0 ==> Now() == d'.(inodes := d.inodes[i := ino.(blocks := ino.blocks[k := b])]))
    {
      hide Decode;
      hide FirstClear;
      b := Pointer(i, k);
      if b == 0 {
        b := FsAllocBlock();
        if b != 0 {
          SetPointer(i, k, b);
        }
      }
    }

    /** One pass of the write loop: allocate the block if needed, copy, move the offset and the size. */
    method WritePass(fd: nat, buffer: array<byte>, from: nat, n: nat) returns (ok: bool)
      requires Shape() && FdMapped(State(), fd)
      requires 0 < n <= Room(State(), fd) && Outside(buffer) && from + n <= buffer.Length
      requires openFiles[fd].offset + n < U32
      modifies ramdisk, openFiles
      ensures (State(), ok) == WriteChunk(old(State()), fd, buffer[from..from + n])
    {
      hide Store;
      hide Encode;
      hide AllocBlock;
      hide Decode;
      var desc := openFiles[fd];
      var blockIndex := desc.offset / BLOCK_SIZE;
      var offsetInBlock := desc.offset % BLOCK_SIZE;
      if blockIndex >= DIRECT_BLOCKS {
        return false;
      }
      var b := BlockFor(desc.inode, blockIndex);
      if b == 0 {
        return false;
      }
      CopyIn(b, offsetInBlock, buffer, from, n);
      openFiles[fd] := desc.(offset := desc.offset + n);
      var size := Size(desc.inode);
      if openFiles[fd].offset > size {
        SetSize(desc.inode, openFiles[fd].offset);
      }
      ok := true;
      SamePointer(old(Now()).inodes[desc.inode], blockIndex);
      Overwrite(old(Now()).inodes, desc.inode, Now().inodes[desc.inode]);
      assert openFiles[..] == old(openFiles[..])[fd := desc.(offset := desc.offset + n)];
    }

    /** Any file may be removed; the disk and the descriptors stay consistent exactly when no valid
        descriptor refers to it. */
    method FsUnlink(filename: array?<byte>) returns (rc: int)
      requires Valid()
      requires filename != null ==> Outside(filename) && 0 in filename[..]
      modifies ramdisk
      ensures filename == null ==> rc == -1 && State() == old(State())
      ensures forall e :: 0 <= e < DIR_ENTRIES ==> old(Now()).dir[e].inode < MAX_INODES
      ensures filename != null ==> (State(), rc) == Unlink(old(State()), CString(filename[..]))
      ensures Valid() == (filename == null || FindInode(old(Now()).dir, CString(filename[..])) == 0 ||
        forall g :: 0 <= g < MAX_OPEN && openFiles[g].valid ==>
          openFiles[g].inode != FindInode(old(Now()).dir, CString(filename[..])))
    {
      hide Decode;
      hide Shaped;
      hide Inv;
      hide FreeBlocks;
      hide FreeInode;
      hide FindInode;
      hide CString;
      ghost var fs0 := State();
      UnlinkInvExactly(fs0, if filename == null then [] else CString(filename[..]));
      if filename == null {
        return -1;
      }
      var i := FsFindInode(filename);
      if i == 0 {
        return -1;
      }
      LiveInodeFound(fs0, CString(filename[..]));
      FreePointers(i);
      FsFreeInode(i);
      RemoveEntry(i);
      return 0;
    }

    /** The block loop of unlink. */
    method FreePointers(i: nat)
      requires Shape() && i < MAX_INODES
      modifies ramdisk
      ensures Now() == FreeBlocks(old(Now()), old(Now()).inodes[i].blocks)
    {
      hide Decode;
      ghost var bs := Now().inodes[i].blocks;
      var k := 0;
      while k < DIRECT_BLOCKS
        invariant 0 <= k <= DIRECT_BLOCKS && Now().inodes == old(Now()).inodes
        invariant FreeBlocks(Now(), bs[k..]) == FreeBlocks(old(Now()), bs)
      {
        assert bs[k..][1..] == bs[k + 1..];
        var b := Pointer(i, k);
        if b != 0 {
          FsFreeBlock(b);
        }
        k := k + 1;
      }
    }

    /** The directory loop of unlink. */
    method RemoveEntry(i: nat)
      requires Shape() && i != 0 && FindEntry(Now().dir, i, 0) < DIR_ENTRIES
      modifies ramdisk
      ensures var d := old(Now());
        var e := FindEntry(d.dir, i, 0);
        Now() == d.(dir := d.dir[e := DirEntry(d.dir[e].name[0 := 0], 0)])
    {
      hide Decode;
      var e := 0;
      while e < DIR_ENTRIES
        invariant 0 <= e <= DIR_ENTRIES && Now() == old(Now())
        invariant FindEntry(Now().dir, i, 0) == FindEntry(Now().dir, i, e)
      {
        var inode := DirInode(e);
        if inode == i {
          SetDirInode(e, 0);
          SetNameByte(e, 0, 0);
          assert Store(old(Now()).dir[e].name, 0, [0]) == old(Now()).dir[e].name[0 := 0];
          return;
        }
        e := e + 1;
      }
    }
  }

  lemma BlockSlice(d: seq<byte>, b: nat, off: nat, n: nat)
    requires |d| == DISK_SIZE && b < DATA_BLOCKS && off + n <= BLOCK_SIZE
    ensures Decode(d).data[b][off..off + n] == d[BlockAddr(DATA_START + b) + off..BlockAddr(DATA_START + b) + off + n]
  {
    assert Decode(d).data[b] == BlockAt(d, b);
  }

  lemma {:induction false} FieldString(field: seq<byte>, rest: seq<byte>)
    requires |CString(field)| < |field|
    ensures 0 in field && 0 in field + rest && CString(field + rest) == CString(field)
  {
    if field[0] != 0 {
      FieldString(field[1..], rest);
      assert (field + rest)[1..] == field[1..] + rest;
    }
  }

  /** The six stores of `fs_init` over zeros. */
  lemma SuperblockWords(zeros: seq<byte>)
    requires |zeros| == DISK_SIZE && forall x :: 0 <= x < DISK_SIZE ==> zeros[x] == 0
    ensures var d := Superblock(zeros, Encode(0x53454E47), Encode(TOTAL_BLOCKS), Encode(32), Encode(DATA_BLOCKS),
                                Encode(MAX_INODES - 1));
      && (forall x :: 24 <= x < DISK_SIZE ==> d[x] == 0)
      && Word(d, 0) == 0x53454E47 && Word(d, 4) == TOTAL_BLOCKS && Word(d, 8) == 32 && Word(d, 12) == DATA_BLOCKS
      && Word(d, FREE_BLOCKS_ADDR) == DATA_BLOCKS && Word(d, FREE_INODES_ADDR) == MAX_INODES - 1
  {
    hide Encode;
    EncodeWord(0x53454E47);
    EncodeWord(TOTAL_BLOCKS);
    EncodeWord(32);
    EncodeWord(DATA_BLOCKS);
    EncodeWord(MAX_INODES - 1);
  }

  function Superblock(d: seq<byte>, w0: seq<byte>, w4: seq<byte>, w8: seq<byte>, w12: seq<byte>, w20: seq<byte>)
    : (r: seq<byte>)
    requires |d| == DISK_SIZE && |w0| == |w4| == |w8| == |w12| == |w20| == 4
    ensures |r| == DISK_SIZE && (forall x :: 24 <= x < DISK_SIZE ==> r[x] == d[x])
    ensures Word(r, 0) == Word(w0, 0) && Word(r, 4) == Word(w4, 0) && Word(r, 8) == Word(w8, 0)
    ensures Word(r, 12) == Word(w12, 0) && Word(r, 16) == Word(w12, 0) && Word(r, 20) == Word(w20, 0)
  {
    Store(Store(Store(Store(Store(Store(d, 0, w0), 4, w4), 8, w8), 12, w12), FREE_BLOCKS_ADDR, w12), FREE_INODES_ADDR, w20)
  }

  lemma ZeroWord(d: seq<byte>, a: nat)
    requires a + 4 <= |d| && forall x :: a <= x < a + 4 ==> d[x] == 0
    ensures Word(d, a) == 0
  {
  }

  lemma ZeroBits(packed: seq<byte>)
    requires forall x :: 0 <= x < |packed| ==> packed[x] == 0
    ensures Unpack(packed) == seq(8 * |packed|, i => false)
  {
  }

  lemma ZeroDir(d: seq<byte>)
    requires |d| == DISK_SIZE && forall x :: 24 <= x < DISK_SIZE ==> d[x] == 0
    ensures DirOf(d) == Formatted().dir
  {
    hide Word;
    forall e | 0 <= e < DIR_ENTRIES
      ensures DirEntryAt(d, e) == DirEntry(Zeros(NAME_LEN), 0)
    {
      ZeroWord(d, DirEntryAddr(e) + NAME_LEN);
    }
  }

  lemma ZeroInodes(d: seq<byte>)
    requires |d| == DISK_SIZE && forall x :: 24 <= x < DISK_SIZE ==> d[x] == 0
    ensures InodesOf(d) == Formatted().inodes
  {
    hide Word;
    forall i | 0 <= i < MAX_INODES
      ensures InodeAt(d, i) == Inode(0, NO_BLOCKS)
    {
      ZeroInode(d, i);
    }
  }

  lemma ZeroInode(d: seq<byte>, i: nat)
    requires |d| == DISK_SIZE && i < MAX_INODES && forall x :: 24 <= x < DISK_SIZE ==> d[x] == 0
    ensures InodeAt(d, i) == Inode(0, NO_BLOCKS)
  {
    hide Word;
    ZeroWord(d, InodeAddr(i));
    forall k | 0 <= k < DIRECT_BLOCKS
      ensures Word(d, InodeAddr(i) + 4 + 4 * k) == 0
    {
      ZeroWord(d, InodeAddr(i) + 4 + 4 * k);
    }
    assert InodeAt(d, i).blocks == NO_BLOCKS;
  }

  /** The bytes `fs_init` leaves decode to the formatted disk. */
  lemma FormattedDisk(d: seq<byte>)
    requires |d| == DISK_SIZE
    requires forall x :: 24 <= x < DISK_SIZE ==> d[x] == 0
    requires Word(d, 0) == 0x53454E47 && Word(d, 4) == TOTAL_BLOCKS && Word(d, 8) == 32 && Word(d, 12) == DATA_BLOCKS
    requires Word(d, FREE_BLOCKS_ADDR) == DATA_BLOCKS && Word(d, FREE_INODES_ADDR) == MAX_INODES - 1
    ensures Decode(d) == Formatted()
  {
    hide Word;
    hide Unpack;
    ZeroDir(d);
    ZeroInodes(d);
    ZeroBits(d[BLOCK_BITMAP_ADDR..BLOCK_BITMAP_ADDR + 28]);
    ZeroBits(d[INODE_BITMAP_ADDR..INODE_BITMAP_ADDR + 128]);
    hide DirOf;
    hide InodesOf;
    assert BlockBitsOf(d) == Formatted().blockBits;
    assert InodeBitsOf(d) == Formatted().inodeBits;
    forall b | 0 <= b < DATA_BLOCKS
      ensures BlockAt(d, b) == Zeros(BLOCK_SIZE)
    {
    }
  }

  /** `strncpy` to 27 bytes and a final NUL fill the field. */
  lemma PadTwice(field: seq<byte>, name: Name)
    requires |field| == NAME_LEN && |name| < NAME_LEN
    ensures Store(Store(field, 0, Ncpy(name, NAME_LEN - 1)), NAME_LEN - 1, [0]) == Padded(name)
  {
  }

  /** A stretch of a file inside one block is a stretch of that block. */
  lemma BlockOfContent(d: Disk, i: nat, p: nat, n: nat)
    requires Shaped(d) && i < MAX_INODES && Backed(d.inodes[i])
    requires p + n <= d.inodes[i].size && 0 < n <= BLOCK_SIZE - p % BLOCK_SIZE
    ensures p / BLOCK_SIZE < DIRECT_BLOCKS && DATA_START <= d.inodes[i].blocks[p / BLOCK_SIZE] < TOTAL_BLOCKS
    ensures Content(d, i)[p..p + n] == d.data[d.inodes[i].blocks[p / BLOCK_SIZE] - DATA_START][p % BLOCK_SIZE..p % BLOCK_SIZE + n]
  {
    forall x | p <= x < p + n
      ensures x / BLOCK_SIZE == p / BLOCK_SIZE && x % BLOCK_SIZE == p % BLOCK_SIZE + x - p
    {
    }
  }

  lemma StoreTwice(s: seq<byte>, x: seq<byte>, y: seq<byte>)
    requires |x| + |y| <= |s|
    ensures Store(Store(s, 0, x), |x|, y) == Store(s, 0, x + y)
  {
  }

  lemma StoreNothing(s: seq<byte>)
    ensures Store(s, 0, []) == s
  {
  }

  lemma SamePointer(ino: Inode, k: nat)
    requires k < |ino.blocks|
    ensures ino.blocks[k := ino.blocks[k]] == ino.blocks
  {
  }

  lemma Overwrite(s: seq<Inode>, i: nat, y: Inode)
    requires i < |s|
    ensures s[i := s[i]] == s
    ensures forall x {:trigger s[i := x]} :: s[i := x][i := y] == s[i := y]
  {
  }

  lemma ContentSize(fs: Fs, fd: int)
    requires FdBacked(fs, fd)
    ensures |Content(fs.disk, fs.fds[fd].inode)| == fs.disk.inodes[fs.fds[fd].inode].size
  {
  }

  lemma LiveInodeFound(fs: Fs, name: Name)
    requires Inv(fs) && FindInode(fs.disk.dir, name) != 0
    ensures FindInode(fs.disk.dir, name) < MAX_INODES
    ensures FindEntry(fs.disk.dir, FindInode(fs.disk.dir, name), 0) < DIR_ENTRIES
  {
    var e := FindName(fs.disk.dir, name, 0);
    assert EntryOk(fs.disk, e);
    FirstHolder(fs.disk, e);
  }

  /** The first pass of a write, and the rest. */
  lemma WriteStep(fs: Fs, fd: int, buf: seq<byte>)
    requires Inv(fs) && ValidFd(fs, fd) && FdMapped(fs, fd) && buf != []
    ensures var n := Min(Room(fs, fd), |buf|);
      var (fs', ok) := WriteChunk(fs, fd, buf[..n]);
      && Inv(fs') && ValidFd(fs', fd)
      && WriteLoop(fs, fd, buf) ==
         if ok then (WriteLoop(fs', fd, buf[n..]).0, n + WriteLoop(fs', fd, buf[n..]).1) else (fs, 0)
  {
    hide WriteChunk;
    hide Inv;
    ChunkInv(fs, fd, buf[..Min(Room(fs, fd), |buf|)]);
  }

  lemma WriteStop(fs: Fs, fd: int)
    requires FdMapped(fs, fd)
    ensures WriteLoop(fs, fd, []) == (fs, 0)
  {
  }

  /** The descriptor moved n bytes ahead. */
  function Advance(fs: Fs, fd: int, n: nat): Fs
    requires FdBacked(fs, fd)
  {
    fs.(fds := fs.fds[fd := fs.fds[fd].(offset := fs.fds[fd].offset + n)])
  }

  /** The n bytes that start `from` bytes ahead of the descriptor. */
  function Ahead(fs: Fs, fd: int, from: nat, n: nat): (r: seq<byte>)
    requires FdBacked(fs, fd)
    requires fs.fds[fd].offset + from + n <= |Content(fs.disk, fs.fds[fd].inode)|
    ensures |r| == n
  {
    Content(fs.disk, fs.fds[fd].inode)[fs.fds[fd].offset + from..fs.fds[fd].offset + from + n]
  }

  lemma AdvanceFacts(fs: Fs, fd: int, r: nat)
    requires FdBacked(fs, fd)
    ensures var fs' := Advance(fs, fd, r);
      && FdBacked(fs', fd) && fs'.disk == fs.disk && fs'.fds[fd] == fs.fds[fd].(offset := fs.fds[fd].offset + r)
      && 0 <= fd < |fs.fds| == |fs'.fds| == MAX_OPEN
  {
  }

  lemma AheadMore(fs: Fs, fd: int, r: nat, n: nat)
    requires FdBacked(fs, fd) && fs.fds[fd].offset + r + n <= |Content(fs.disk, fs.fds[fd].inode)|
    ensures Advance(fs, fd, 0) == fs && Ahead(fs, fd, 0, 0) == []
    ensures Ahead(fs, fd, 0, r) + Ahead(fs, fd, r, n) == Ahead(fs, fd, 0, r + n)
    ensures FdBacked(Advance(fs, fd, r), fd)
    ensures Advance(Advance(fs, fd, r), fd, n) == Advance(fs, fd, r + n)
    ensures Ahead(Advance(fs, fd, r), fd, 0, n) == Ahead(fs, fd, r, n)
  {
    hide Content;
  }
}
