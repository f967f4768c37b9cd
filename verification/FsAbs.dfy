/** The file system as its users see it: a map from names to contents and a table of handles
    (file, offset). The functions of FsSpec refine these operations, results included. */
module FsAbs {
  import opened Bits
  import opened FsLayout
  import opened FsSpec
  import opened FsInv
  import opened FsPreserve

  datatype Handle = Closed | Handle(file: Name, offset: nat)
  datatype Model = Model(files: map<Name, seq<byte>>, handles: seq<Handle>, free: nat)

  // ---- The simple operations -----------------------------------------------------------

  function ACreate(a: Model, name: Name): (Model, int) {
    if !GoodName(name) || name in a.files || |a.files| >= DIR_ENTRIES then (a, -1)
    else (a.(files := a.files[name := []]), 0)
  }

  function FirstClosed(hs: seq<Handle>, from: nat): (h: nat)
    requires from <= |hs|
    ensures from <= h <= |hs|
    decreases |hs| - from
  {
    if from == |hs| || hs[from].Closed? then from else FirstClosed(hs, from + 1)
  }

  /** Opening with `create` may leave the new file behind even when no handle is free. */
  function AOpen(a: Model, name: Name, create: bool): (Model, int) {
    var a' := if create then ACreate(a, name).0 else a;
    var fd: int := FirstClosed(a.handles, 0);
    if name !in a'.files || fd == |a.handles| then (a', -1)
    else (a'.(handles := a.handles[fd := Handle(name, 0)]), fd)
  }

  predicate IsOpen(a: Model, fd: int) {
    0 <= fd < |a.handles| && a.handles[fd].Handle?
  }

  function AClose(a: Model, fd: int): (Model, int) {
    if !IsOpen(a, fd) then (a, -1) else (a.(handles := a.handles[fd := Closed]), 0)
  }

  /** Open handles name existing files and stand inside them. */
  predicate Sound(a: Model) {
    forall fd :: 0 <= fd < |a.handles| && a.handles[fd].Handle? ==>
      a.handles[fd].file in a.files && a.handles[fd].offset <= |a.files[a.handles[fd].file]|
  }

  function ARead(a: Model, fd: int, count: nat): (Model, seq<byte>, int)
    requires Sound(a)
  {
    if !IsOpen(a, fd) then (a, [], -1)
    else
      var h := a.handles[fd];
      var c := a.files[h.file];
      var n := Min(count, |c| - h.offset);
      (a.(handles := a.handles[fd := h.(offset := h.offset + n)]), c[h.offset..h.offset + n], n)
  }

  /** `c` with `bs` written over it from `off` on. */
  function Splice(c: seq<byte>, off: nat, bs: seq<byte>): (r: seq<byte>)
    requires off <= |c|
    ensures |r| == Max(|c|, off + |bs|)
    ensures forall p :: 0 <= p < |r| ==> r[p] == if off <= p < off + |bs| then bs[p - off] else c[p]
  {
    c[..off] + bs + if off + |bs| < |c| then c[off + |bs|..] else []
  }

  /** How far a file of this size can grow with this many free blocks. */
  function Capacity(size: nat, free: nat): nat {
    Min(MAX_FILE_SIZE, (BlocksFor(size) + free) * BLOCK_SIZE)
  }

  function Accepted(a: Model, fd: int, len: nat): nat
    requires Sound(a) && IsOpen(a, fd)
  {
    var h := a.handles[fd];
    Max(0, Min(len, Capacity(|a.files[h.file]|, a.free) - h.offset))
  }

  function AWrite(a: Model, fd: int, buf: seq<byte>): (Model, int)
    requires Sound(a)
  {
    if !IsOpen(a, fd) then (a, -1)
    else
      var h := a.handles[fd];
      var c := a.files[h.file];
      var n: int := Accepted(a, fd, |buf|);
      var c' := Splice(c, h.offset, buf[..n]);
      (Model(a.files[h.file := c'], a.handles[fd := h.(offset := h.offset + n)],
             Max(0, a.free + BlocksFor(|c|) - BlocksFor(|c'|))), n)
  }

  function AUnlink(a: Model, name: Name): (Model, int) {
    if name !in a.files then (a, -1)
    else (a.(files := a.files - {name}, free := a.free + BlocksFor(|a.files[name]|)), 0)
  }

  // ---- The abstraction -----------------------------------------------------------------

  ghost predicate DiskInv(d: Disk) {
    BlocksInv(d) && DirInv(d)
  }

  lemma LiveEntry(d: Disk, e: nat)
    requires DiskInv(d) && e < DIR_ENTRIES && d.dir[e].inode != 0
    ensures d.dir[e].inode < MAX_INODES && d.inodeBits[d.dir[e].inode] && Backed(d.inodes[d.dir[e].inode])
    ensures FindEntry(d.dir, d.dir[e].inode, 0) == e && FindName(d.dir, NameAt(d.dir, e), 0) == e
  {
    assert EntryOk(d, e) && InodeOk(d.inodes[d.dir[e].inode]);
    FirstHolder(d, e);
    assert Named(d.dir, e, NameAt(d.dir, e));
  }

  /** The contents of the files held by the first n directory entries. */
  ghost function FilesUpTo(d: Disk, n: nat): map<Name, seq<byte>>
    requires DiskInv(d) && n <= DIR_ENTRIES
  {
    if n == 0 then map[]
    else
      var m := FilesUpTo(d, n - 1);
      if d.dir[n - 1].inode == 0 then m
      else
        LiveEntry(d, n - 1);
        m[NameAt(d.dir, n - 1) := Content(d, d.dir[n - 1].inode)]
  }

  function HandleOf(d: Disk, f: Desc): Handle {
    if !f.valid then Closed
    else
      var e := FindEntry(d.dir, f.inode, 0);
      if e < |d.dir| then Handle(NameAt(d.dir, e), f.offset) else Closed
  }

  function Handles(fs: Fs): (hs: seq<Handle>)
    ensures |hs| == |fs.fds|
  {
    seq(|fs.fds|, g requires 0 <= g < |fs.fds| => HandleOf(fs.disk, fs.fds[g]))
  }

  ghost function Abs(fs: Fs): Model
    requires Inv(fs)
  {
    Model(FilesUpTo(fs.disk, DIR_ENTRIES), Handles(fs), fs.disk.freeBlocks)
  }

  /** m maps exactly the names in the directory, each to its file's bytes. */
  ghost predicate IsFiles(d: Disk, m: map<Name, seq<byte>>, n: nat)
    requires DiskInv(d) && n <= DIR_ENTRIES
  {
    && (forall e :: 0 <= e < n && d.dir[e].inode != 0 ==>
          (LiveEntry(d, e); NameAt(d.dir, e) in m && m[NameAt(d.dir, e)] == Content(d, d.dir[e].inode)))
    && (forall x :: x in m ==> FindName(d.dir, x, 0) < n)
  }

  lemma {:induction false} FilesUpToIs(d: Disk, n: nat)
    requires DiskInv(d) && n <= DIR_ENTRIES
    ensures IsFiles(d, FilesUpTo(d, n), n)
    ensures |FilesUpTo(d, n)| == CountSet(LiveMarks(d.dir)[..n])
  {
    if n > 0 {
      FilesUpToIs(d, n - 1);
      FilesUpToStep(d, n - 1, FilesUpTo(d, n - 1));
    }
  }

  lemma FilesUpToStep(d: Disk, n: nat, m: map<Name, seq<byte>>)
    requires DiskInv(d) && n < DIR_ENTRIES && m == FilesUpTo(d, n) && IsFiles(d, m, n)
    requires |m| == CountSet(LiveMarks(d.dir)[..n])
    ensures IsFiles(d, FilesUpTo(d, n + 1), n + 1)
    ensures |FilesUpTo(d, n + 1)| == CountSet(LiveMarks(d.dir)[..n + 1])
  {
    hide DiskInv;
    hide Content;
    hide IsFiles;
    hide CountSet;
    EntriesSized(d);
    MarksNext(d.dir, n);
    if d.dir[n].inode != 0 {
      LiveEntry(d, n);
      AddFile(d, n, m);
    } else {
      SkipEntry(d, n, m);
    }
  }

  lemma EntriesSized(d: Disk)
    requires DiskInv(d)
    ensures |d.dir| == DIR_ENTRIES
  {
  }

  lemma MarksNext(dir: seq<DirEntry>, n: nat)
    requires n < |dir|
    ensures CountSet(LiveMarks(dir)[..n + 1]) == CountSet(LiveMarks(dir)[..n]) + if dir[n].inode != 0 then 1 else 0
  {
    assert LiveMarks(dir)[..n + 1][..n] == LiveMarks(dir)[..n];
  }

  lemma SkipEntry(d: Disk, n: nat, m: map<Name, seq<byte>>)
    requires DiskInv(d) && n < DIR_ENTRIES && d.dir[n].inode == 0 && IsFiles(d, m, n)
    ensures IsFiles(d, m, n + 1)
  {
    hide Content;
  }

  lemma AddFile(d: Disk, n: nat, m: map<Name, seq<byte>>)
    requires DiskInv(d) && n < DIR_ENTRIES && d.dir[n].inode != 0 && IsFiles(d, m, n)
    requires d.dir[n].inode < MAX_INODES && Backed(d.inodes[d.dir[n].inode])
    ensures NameAt(d.dir, n) !in m
    ensures IsFiles(d, m[NameAt(d.dir, n) := Content(d, d.dir[n].inode)], n + 1)
  {
    hide Content;
    hide FilesUpTo;
    hide DiskInv;
    hide FindName;
    EntriesSized(d);
    LiveEntry(d, n);
  }

  lemma IsFilesUnique(d: Disk, m: map<Name, seq<byte>>)
    requires DiskInv(d) && IsFiles(d, m, DIR_ENTRIES)
    ensures m == FilesUpTo(d, DIR_ENTRIES)
  {
    FilesUpToIs(d, DIR_ENTRIES);
    var w := FilesUpTo(d, DIR_ENTRIES);
    forall x | x in m || x in w
      ensures x in m && x in w && m[x] == w[x]
    {
      var e := FindName(d.dir, x, 0);
      LiveEntry(d, e);
    }
  }

  /** Membership, size and contents of the abstract map, in terms of the disk. */
  lemma AbsFiles(fs: Fs)
    requires Inv(fs)
    ensures IsFiles(fs.disk, Abs(fs).files, DIR_ENTRIES)
    ensures |Abs(fs).files| == Files(fs.disk)
    ensures forall x :: x in Abs(fs).files <==> FindName(fs.disk.dir, x, 0) < DIR_ENTRIES
  {
    FilesUpToIs(fs.disk, DIR_ENTRIES);
    assert LiveMarks(fs.disk.dir)[..DIR_ENTRIES] == LiveMarks(fs.disk.dir);
    forall x | FindName(fs.disk.dir, x, 0) < DIR_ENTRIES
      ensures x in Abs(fs).files
    {
      LiveEntry(fs.disk, FindName(fs.disk.dir, x, 0));
    }
  }

  /** An open descriptor is a handle on the entry that holds its inode. */
  lemma AbsHandle(fs: Fs, fd: int)
    requires Inv(fs)
    ensures ValidFd(fs, fd) <==> IsOpen(Abs(fs), fd)
    ensures ValidFd(fs, fd) ==>
      var f, d := fs.fds[fd], fs.disk;
      var e := FindEntry(d.dir, f.inode, 0);
      && 0 < f.inode < MAX_INODES && d.inodeBits[f.inode] && e < DIR_ENTRIES && Backed(d.inodes[f.inode])
      && Abs(fs).handles[fd] == Handle(NameAt(d.dir, e), f.offset)
      && FindName(d.dir, NameAt(d.dir, e), 0) == e && FindInode(d.dir, NameAt(d.dir, e)) == f.inode
      && NameAt(d.dir, e) in Abs(fs).files && Abs(fs).files[NameAt(d.dir, e)] == Content(d, f.inode)
      && f.offset <= |Content(d, f.inode)|
  {
    if 0 <= fd < MAX_OPEN && fs.fds[fd].valid {
      assert FdOk(fs.disk, fs.fds[fd]);
      LiveEntry(fs.disk, FindEntry(fs.disk.dir, fs.fds[fd].inode, 0));
      AbsFiles(fs);
    }
  }

  lemma AbsSound(fs: Fs)
    requires Inv(fs)
    ensures Sound(Abs(fs))
  {
    forall fd | 0 <= fd < MAX_OPEN && Abs(fs).handles[fd].Handle?
      ensures Abs(fs).handles[fd].file in Abs(fs).files && Abs(fs).handles[fd].offset <= |Abs(fs).files[Abs(fs).handles[fd].file]|
    {
      AbsHandle(fs, fd);
    }
  }

  // ---- Create and open -----------------------------------------------------------------

  /** A live entry after creation is the new, empty file or one that was there, unchanged. */
  lemma CreatedEntry(d: Disk, name: Name, e: nat)
    requires DiskInv(d) && 0 !in name && Create(d, name).1 == 0
    requires DiskInv(Create(d, name).0) && e < DIR_ENTRIES && Create(d, name).0.dir[e].inode != 0
    ensures var d' := Create(d, name).0;
      d'.dir[e].inode < MAX_INODES && Backed(d'.inodes[d'.dir[e].inode]) &&
      if e == FindEntry(d.dir, 0, 0) then NameAt(d'.dir, e) == name && Content(d', d'.dir[e].inode) == []
      else
        && d'.dir[e] == d.dir[e] && NameAt(d.dir, e) != name
        && Backed(d.inodes[d.dir[e].inode]) && Content(d', d.dir[e].inode) == Content(d, d.dir[e].inode)
  {
    CreateExact(d, name);
    var d' := Create(d, name).0;
    LiveEntry(d', e);
    if e != FindEntry(d.dir, 0, 0) {
      LiveEntry(d, e);
      assert !Named(d.dir, e, name);
      assert Content(d', d.dir[e].inode) == Content(d, d.dir[e].inode);
    }
  }

  lemma FilesCreate(fs: Fs, name: Name)
    requires Inv(fs) && 0 !in name && Create(fs.disk, name).1 == 0
    ensures var d' := Create(fs.disk, name).0;
      DiskInv(d') && FilesUpTo(d', DIR_ENTRIES) == Abs(fs).files[name := []]
  {
    hide FilesUpTo;
    hide Content;
    hide Create;
    CreateExact(fs.disk, name);
    AbsFiles(fs);
    var d, d' := fs.disk, Create(fs.disk, name).0;
    var e0 := FindEntry(d.dir, 0, 0);
    var m := Abs(fs).files[name := []];
    forall e | 0 <= e < DIR_ENTRIES && d'.dir[e].inode != 0
      ensures d'.dir[e].inode < MAX_INODES && Backed(d'.inodes[d'.dir[e].inode])
      ensures NameAt(d'.dir, e) in m && m[NameAt(d'.dir, e)] == Content(d', d'.dir[e].inode)
    {
      LiveEntry(d', e);
      CreatedEntry(d, name, e);
      if e != e0 {
        LiveEntry(d, e);
      }
    }
    forall x | x in m
      ensures FindName(d'.dir, x, 0) < DIR_ENTRIES
    {
      if x == name {
        assert Named(d'.dir, e0, name);
      } else {
        assert Named(d'.dir, FindName(d.dir, x, 0), x);
      }
    }
    IsFilesUnique(d', m);
  }

  lemma HandlesCreate(fs: Fs, name: Name)
    requires Inv(fs) && 0 !in name
    ensures var fs' := fs.(disk := Create(fs.disk, name).0);
      Inv(fs') && Handles(fs') == Handles(fs)
  {
    CreateExact(fs.disk, name);
    var d, d' := fs.disk, Create(fs.disk, name).0;
    forall g | 0 <= g < MAX_OPEN
      ensures FdOk(d', fs.fds[g]) && HandleOf(d', fs.fds[g]) == HandleOf(d, fs.fds[g])
    {
      assert FdOk(d, fs.fds[g]);
      if fs.fds[g].valid && d' != d {
        var e := FindEntry(d.dir, fs.fds[g].inode, 0);
        LiveEntry(d, e);
        LiveEntry(d', e);
      }
    }
  }

  lemma CreateRefines(fs: Fs, name: Name)
    requires Inv(fs) && 0 !in name
    ensures var (d', rc) := Create(fs.disk, name);
      Inv(fs.(disk := d')) && (Abs(fs.(disk := d')), rc) == ACreate(Abs(fs), name)
  {
    CreateExact(fs.disk, name);
    AbsFiles(fs);
    HandlesCreate(fs, name);
    if Create(fs.disk, name).1 == 0 {
      FilesCreate(fs, name);
    }
  }

  lemma {:induction false} FirstClosedIs(fs: Fs, from: nat)
    requires Inv(fs) && from <= MAX_OPEN
    ensures FirstClosed(Abs(fs).handles, from) == FindFreeFd(fs.fds, from)
    decreases MAX_OPEN - from
  {
    AbsHandle(fs, from);
    if from < MAX_OPEN && fs.fds[from].valid {
      FirstClosedIs(fs, from + 1);
    }
  }

  lemma FileInode(d: Disk, name: Name)
    requires DiskInv(d)
    ensures FindInode(d.dir, name) != 0 <==> FindName(d.dir, name, 0) < DIR_ENTRIES
    ensures FindInode(d.dir, name) != 0 ==>
      FindEntry(d.dir, FindInode(d.dir, name), 0) == FindName(d.dir, name, 0)
  {
    var e := FindName(d.dir, name, 0);
    if e < DIR_ENTRIES {
      LiveEntry(d, e);
    }
  }

  lemma NewHandle(fs: Fs, name: Name, fd: nat)
    requires Inv(fs) && fd < MAX_OPEN && FindInode(fs.disk.dir, name) != 0
    ensures var fs' := fs.(fds := fs.fds[fd := Desc(FindInode(fs.disk.dir, name), 0, true)]);
      Inv(fs') && Abs(fs') == Abs(fs).(handles := Abs(fs).handles[fd := Handle(name, 0)])
  {
    FileInode(fs.disk, name);
    LiveEntry(fs.disk, FindName(fs.disk.dir, name, 0));
    var fs' := fs.(fds := fs.fds[fd := Desc(FindInode(fs.disk.dir, name), 0, true)]);
    assert Handles(fs') == Handles(fs)[fd := Handle(name, 0)];
  }

  lemma OpenExisting(fs: Fs, name: Name)
    requires Inv(fs) && 0 !in name
    ensures var (fs', fd) := Open(fs, name, false);
      Inv(fs') && (Abs(fs'), fd) == AOpen(Abs(fs), name, false)
  {
    AbsFiles(fs);
    FileInode(fs.disk, name);
    FirstClosedIs(fs, 0);
    var fd := FindFreeFd(fs.fds, 0);
    if FindInode(fs.disk.dir, name) != 0 && fd < MAX_OPEN {
      NewHandle(fs, name, fd);
    }
  }

  lemma NameKnown(fs: Fs, name: Name)
    requires Inv(fs)
    ensures FsShaped(fs) && (name in Abs(fs).files <==> FindInode(fs.disk.dir, name) != 0)
  {
    AbsFiles(fs);
    FileInode(fs.disk, name);
  }

  lemma OpenRefines(fs: Fs, name: Name, create: bool)
    requires Inv(fs) && 0 !in name
    ensures var (fs', fd) := Open(fs, name, create);
      Inv(fs') && (Abs(fs'), fd) == AOpen(Abs(fs), name, create)
  {
    hide Inv;
    hide Abs;
    hide FindInode;
    hide FindFreeFd;
    hide Create;
    NameKnown(fs, name);
    if FindInode(fs.disk.dir, name) == 0 && create {
      CreateRefines(fs, name);
      var fs1 := fs.(disk := Create(fs.disk, name).0);
      OpenExisting(fs1, name);
    } else {
      OpenExisting(fs, name);
    }
  }

  lemma {:induction false} FirstClosedNone(hs: seq<Handle>, from: nat)
    requires from <= |hs|
    ensures FirstClosed(hs, from) == |hs| <==> forall h :: from <= h < |hs| ==> hs[h].Handle?
    decreases |hs| - from
  {
    if from < |hs| && hs[from].Handle? {
      FirstClosedNone(hs, from + 1);
    }
  }

  /** When opening fails and yet changes the files: exactly when asked to create a good new name,
      with an entry for it, while every handle is taken; it then leaves the empty file behind. */
  lemma OpenLeavesFile(a: Model, name: Name, create: bool)
    ensures var (a', fd) := AOpen(a, name, create);
      && (fd == -1 && a'.files != a.files <==>
          && create && GoodName(name) && name !in a.files && |a.files| < DIR_ENTRIES
          && forall h :: 0 <= h < |a.handles| ==> a.handles[h].Handle?)
      && (fd == -1 && a'.files != a.files ==> a' == a.(files := a.files[name := []]))
  {
    FirstClosedNone(a.handles, 0);
  }

  /** The same of fs_open on the disk: every one of the 16 descriptors is valid. */
  lemma FailedOpenCreates(fs: Fs, name: Name)
    requires Inv(fs) && 0 !in name
    ensures var (fs', fd) := Open(fs, name, true);
      && Inv(fs')
      && (fd == -1 && Abs(fs').files != Abs(fs).files <==>
          && GoodName(name) && FindInode(fs.disk.dir, name) == 0 && Files(fs.disk) < DIR_ENTRIES
          && forall g :: 0 <= g < MAX_OPEN ==> fs.fds[g].valid)
      && (fd == -1 && Abs(fs').files != Abs(fs).files ==> Abs(fs').files == Abs(fs).files[name := []] && fs'.fds == fs.fds)
  {
    hide FindInode;
    hide FindName;
    hide IsFiles;
    hide Files;
    hide ValidFd;
    hide IsOpen;
    hide FirstClosed;
    hide FsShaped;
    hide Inv;
    hide Abs;
    hide AOpen;
    hide Open;
    InvShaped(fs);
    OpenRefines(fs, name, true);
    OpenLeavesFile(Abs(fs), name, true);
    NameKnown(fs, name);
    AbsFiles(fs);
    HandlesMatch(fs);
    FailedOpenKeepsFds(fs, name);
  }

  lemma HandlesMatch(fs: Fs)
    requires Inv(fs)
    ensures |Abs(fs).handles| == |fs.fds| == MAX_OPEN
    ensures forall g :: 0 <= g < MAX_OPEN ==> (Abs(fs).handles[g].Handle? <==> fs.fds[g].valid)
  {
    forall g | 0 <= g < MAX_OPEN
      ensures Abs(fs).handles[g].Handle? <==> fs.fds[g].valid
    {
      AbsHandle(fs, g);
    }
  }

  lemma FailedOpenKeepsFds(fs: Fs, name: Name)
    requires FsShaped(fs)
    ensures Open(fs, name, true).1 == -1 ==> Open(fs, name, true).0.fds == fs.fds
  {
  }

  lemma CloseRefines(fs: Fs, fd: int)
    requires Inv(fs)
    ensures Inv(Close(fs, fd).0)
    ensures (Abs(Close(fs, fd).0), Close(fs, fd).1) == AClose(Abs(fs), fd)
  {
    AbsHandle(fs, fd);
    if ValidFd(fs, fd) {
      assert Handles(Close(fs, fd).0) == Handles(fs)[fd := Closed];
    }
  }

  /** Moving an open descriptor within its file. */
  lemma SeekInv(fs: Fs, fd: int, off: nat)
    requires Inv(fs) && ValidFd(fs, fd) && FdBacked(fs, fd)
    requires off <= |Content(fs.disk, fs.fds[fd].inode)|
    ensures var fs' := fs.(fds := fs.fds[fd := fs.fds[fd].(offset := off)]);
      && Inv(fs') && IsOpen(Abs(fs), fd)
      && Abs(fs') == Abs(fs).(handles := Abs(fs).handles[fd := Abs(fs).handles[fd].(offset := off)])
  {
    hide Content;
    var fs' := fs.(fds := fs.fds[fd := fs.fds[fd].(offset := off)]);
    assert FdOk(fs.disk, fs.fds[fd]);
    AbsHandle(fs, fd);
    assert Handles(fs') == Handles(fs)[fd := Handles(fs)[fd].(offset := off)];
  }

  lemma ReadRefines(fs: Fs, fd: int, count: nat)
    requires Inv(fs)
    ensures Sound(Abs(fs))
    ensures ValidFd(fs, fd) ==> FdBacked(fs, fd)
    ensures var (fs', bytes, n) := Read(fs, fd, count);
      Inv(fs') && (Abs(fs'), bytes, n) == ARead(Abs(fs), fd, count)
  {
    hide Read;
    hide Inv;
    hide Abs;
    hide Content;
    hide FdBacked;
    AbsSound(fs);
    ReadNothing(fs, fd, count);
    AbsHandle(fs, fd);
    if ValidFd(fs, fd) {
      ReadChunk(fs, fd, count);
      SeekInv(fs, fd, Read(fs, fd, count).0.fds[fd].offset);
    }
  }
}
