/** Whole runs of the file system: every run from a formatted disk is a run of the simple model;
    a file created, written and removed leaves no trace; and reading in chunks delivers the file. */
module FsRuns {
  import opened Bits
  import opened FsLayout
  import opened FsSpec
  import opened FsInv
  import opened FsPreserve
  import opened FsAbs
  import opened FsWrite

  // ---- Unlink --------------------------------------------------------------------------

  /** No open descriptor refers to the file: the shell always closes first. */
  predicate Unlinkable(fs: Fs, name: Name) {
    forall fd :: 0 <= fd < |fs.fds| && fs.fds[fd].valid ==> fs.fds[fd].inode != FindInode(fs.disk.dir, name)
  }

  lemma FilesRemove(d: Disk, d': Disk, e0: nat)
    requires DiskInv(d) && DiskInv(d') && e0 < DIR_ENTRIES && d.dir[e0].inode != 0
    requires d'.inodes == d.inodes && d'.data == d.data
    requires d'.dir == d.dir[e0 := d'.dir[e0]] && d'.dir[e0].inode == 0
    ensures FilesUpTo(d', DIR_ENTRIES) == FilesUpTo(d, DIR_ENTRIES) - {NameAt(d.dir, e0)}
  {
    FilesUpToIs(d, DIR_ENTRIES);
    LiveEntry(d, e0);
    var m := FilesUpTo(d, DIR_ENTRIES) - {NameAt(d.dir, e0)};
    forall e | 0 <= e < DIR_ENTRIES && d'.dir[e].inode != 0
      ensures d'.dir[e].inode < MAX_INODES && Backed(d'.inodes[d'.dir[e].inode])
      ensures NameAt(d'.dir, e) in m && m[NameAt(d'.dir, e)] == Content(d', d'.dir[e].inode)
    {
      LiveEntry(d, e);
      assert NameAt(d'.dir, e) == NameAt(d.dir, e) != NameAt(d.dir, e0);
      assert Content(d', d.dir[e].inode) == Content(d, d.dir[e].inode);
    }
    forall x | x in m
      ensures FindName(d'.dir, x, 0) < DIR_ENTRIES
    {
      assert Named(d'.dir, FindName(d.dir, x, 0), x);
    }
    IsFilesUnique(d', m);
  }

  lemma HandlesRemove(fs: Fs, fs': Fs, e0: nat)
    requires Inv(fs) && Inv(fs') && fs'.fds == fs.fds && e0 < DIR_ENTRIES
    requires fs'.disk.dir == fs.disk.dir[e0 := fs'.disk.dir[e0]] && fs'.disk.dir[e0].inode == 0
    requires forall fd :: 0 <= fd < MAX_OPEN && fs.fds[fd].valid ==> fs.fds[fd].inode != fs.disk.dir[e0].inode
    ensures Handles(fs') == Handles(fs)
  {
    forall g | 0 <= g < MAX_OPEN
      ensures HandleOf(fs'.disk, fs.fds[g]) == HandleOf(fs.disk, fs.fds[g])
    {
      AbsHandle(fs, g);
      if fs.fds[g].valid {
        LiveEntry(fs'.disk, FindEntry(fs.disk.dir, fs.fds[g].inode, 0));
      }
    }
  }

  lemma UnlinkAbs(fs: Fs, name: Name)
    requires Inv(fs) && FindInode(fs.disk.dir, name) != 0 && Unlinkable(fs, name)
    requires forall e :: 0 <= e < DIR_ENTRIES ==> fs.disk.dir[e].inode < MAX_INODES
    requires Inv(Unlink(fs, name).0)
    ensures Abs(Unlink(fs, name).0) == AUnlink(Abs(fs), name).0
  {
    hide Unlink;
    hide FilesUpTo;
    hide Handles;
    NameKnown(fs, name);
    FileInode(fs.disk, name);
    UnlinkExact(fs, name);
    UnlinkFds(fs, name);
    var fs' := Unlink(fs, name).0;
    var e := FindName(fs.disk.dir, name, 0);
    LiveEntry(fs.disk, e);
    AbsFiles(fs);
    FilesRemove(fs.disk, fs'.disk, e);
    HandlesRemove(fs, fs', e);
  }

  lemma UnlinkFds(fs: Fs, name: Name)
    requires FsShaped(fs)
    requires forall e :: 0 <= e < DIR_ENTRIES ==> fs.disk.dir[e].inode < MAX_INODES
    ensures Unlink(fs, name).0.fds == fs.fds
    ensures Unlink(fs, name).1 == if FindInode(fs.disk.dir, name) == 0 then -1 else 0
    ensures FindInode(fs.disk.dir, name) == 0 ==> Unlink(fs, name).0 == fs
  {
  }

  lemma UnlinkRefines(fs: Fs, name: Name)
    requires Inv(fs) && (FindInode(fs.disk.dir, name) != 0 ==> Unlinkable(fs, name))
    ensures forall e :: 0 <= e < DIR_ENTRIES ==> fs.disk.dir[e].inode < MAX_INODES
    ensures var (fs', rc) := Unlink(fs, name);
      Inv(fs') && (Abs(fs'), rc) == AUnlink(Abs(fs), name)
  {
    hide Unlink;
    hide Inv;
    hide Abs;
    hide FindInode;
    UnlinkInvExactly(fs, name);
    NameKnown(fs, name);
    UnlinkFds(fs, name);
    if FindInode(fs.disk.dir, name) != 0 {
      UnlinkAbs(fs, name);
    }
  }

  // ---- Runs ----------------------------------------------------------------------------

  datatype Op =
    | OpCreate(name: Name)
    | OpOpen(name: Name, create: bool)
    | OpClose(fd: int)
    | OpRead(fd: int, count: nat)
    | OpWrite(fd: int, buf: seq<byte>)
    | OpUnlink(name: Name)

  datatype Reply = Reply(code: int, bytes: seq<byte>)

  /** Names are NUL-free, and files are unlinked only when no descriptor refers to them. */
  predicate Allowed(fs: Fs, op: Op) {
    match op
    case OpCreate(name) => 0 !in name
    case OpOpen(name, _) => 0 !in name
    case OpUnlink(name) => FindInode(fs.disk.dir, name) != 0 ==> Unlinkable(fs, name)
    case _ => true
  }

  lemma Defined(fs: Fs)
    requires Inv(fs)
    ensures forall fd :: ValidFd(fs, fd) ==> FdBacked(fs, fd) && FdMapped(fs, fd)
    ensures forall e :: 0 <= e < DIR_ENTRIES ==> fs.disk.dir[e].inode < MAX_INODES
  {
    forall fd | ValidFd(fs, fd)
      ensures FdBacked(fs, fd) && FdMapped(fs, fd)
    {
      OkBacked(fs, fd);
    }
    forall e | 0 <= e < DIR_ENTRIES
      ensures fs.disk.dir[e].inode < MAX_INODES
    {
      assert EntryOk(fs.disk, e);
    }
  }

  ghost function Do(fs: Fs, op: Op): (Fs, Reply)
    requires Inv(fs)
  {
    Defined(fs);
    match op
    case OpCreate(name) => var (d, rc) := Create(fs.disk, name); (fs.(disk := d), Reply(rc, []))
    case OpOpen(name, create) => var (fs', fd) := Open(fs, name, create); (fs', Reply(fd, []))
    case OpClose(fd) => var (fs', rc) := Close(fs, fd); (fs', Reply(rc, []))
    case OpRead(fd, count) => var (fs', bytes, n) := Read(fs, fd, count); (fs', Reply(n, bytes))
    case OpWrite(fd, buf) => var (fs', n) := Write(fs, fd, buf); (fs', Reply(n, []))
    case OpUnlink(name) => var (fs', rc) := Unlink(fs, name); (fs', Reply(rc, []))
  }

  function ADo(a: Model, op: Op): (Model, Reply)
    requires Sound(a)
  {
    match op
    case OpCreate(name) => var (b, rc) := ACreate(a, name); (b, Reply(rc, []))
    case OpOpen(name, create) => var (b, fd) := AOpen(a, name, create); (b, Reply(fd, []))
    case OpClose(fd) => var (b, rc) := AClose(a, fd); (b, Reply(rc, []))
    case OpRead(fd, count) => var (b, bytes, n) := ARead(a, fd, count); (b, Reply(n, bytes))
    case OpWrite(fd, buf) => var (b, n) := AWrite(a, fd, buf); (b, Reply(n, []))
    case OpUnlink(name) => var (b, rc) := AUnlink(a, name); (b, Reply(rc, []))
  }

  /** One operation: the concrete step simulates the simple one and gives the same reply. */
  lemma DoRefines(fs: Fs, op: Op)
    requires Inv(fs) && Allowed(fs, op)
    ensures Sound(Abs(fs))
    ensures Inv(Do(fs, op).0) && (Abs(Do(fs, op).0), Do(fs, op).1) == ADo(Abs(fs), op)
  {
    hide Inv;
    hide Abs;
    AbsSound(fs);
    Defined(fs);
    match op
    case OpCreate(name) => CreateRefines(fs, name);
    case OpOpen(name, create) => OpenRefines(fs, name, create);
    case OpClose(fd) => CloseRefines(fs, fd);
    case OpRead(fd, count) => ReadRefines(fs, fd, count);
    case OpWrite(fd, buf) => WriteRefines(fs, fd, buf);
    case OpUnlink(name) => UnlinkRefines(fs, name);
  }

  /** A run: states and replies as the operations produce them. */
  ghost predicate Trace(fss: seq<Fs>, ops: seq<Op>, replies: seq<Reply>) {
    && |fss| == |ops| + 1 && |replies| == |ops|
    && FsShaped(fss[0]) && fss[0].disk == Formatted() && (forall fd :: 0 <= fd < MAX_OPEN ==> !fss[0].fds[fd].valid)
    && forall i :: 0 <= i < |ops| && Inv(fss[i]) ==>
         Allowed(fss[i], ops[i]) && (fss[i + 1], replies[i]) == Do(fss[i], ops[i])
  }

  function Empty(): Model {
    Model(map[], seq(MAX_OPEN, i => Closed), DATA_BLOCKS)
  }

  ghost function AStep(a: Model, op: Op): Model {
    if Sound(a) then ADo(a, op).0 else a
  }

  /** The simple model after a sequence of operations. */
  ghost function AExec(ops: seq<Op>): Model {
    if ops == [] then Empty() else AStep(AExec(ops[..|ops| - 1]), ops[|ops| - 1])
  }

  lemma FormattedAbs(fs: Fs)
    requires FsShaped(fs) && fs.disk == Formatted() && forall fd :: 0 <= fd < MAX_OPEN ==> !fs.fds[fd].valid
    ensures Inv(fs) && Abs(fs) == Empty()
  {
    FormattedInv(fs);
    IsFilesUnique(fs.disk, map[]);
  }

  /** Every run of the file system is a run of the simple model, reply for reply. */
  lemma {:induction false} EveryRunRefines(fss: seq<Fs>, ops: seq<Op>, replies: seq<Reply>, n: nat)
    requires Trace(fss, ops, replies) && n <= |ops|
    ensures Inv(fss[n]) && Abs(fss[n]) == AExec(ops[..n]) && Sound(AExec(ops[..n]))
    ensures n < |ops| ==> replies[n] == ADo(AExec(ops[..n]), ops[n]).1
  {
    hide Do;
    hide ADo;
    hide Abs;
    hide Sound;
    hide Inv;
    if n == 0 {
      FormattedAbs(fss[0]);
    } else {
      EveryRunRefines(fss, ops, replies, n - 1);
      DoRefines(fss[n - 1], ops[n - 1]);
      assert ops[..n][..n - 1] == ops[..n - 1];
    }
    AbsSound(fss[n]);
    if n < |ops| {
      DoRefines(fss[n], ops[n]);
      assert (fss[n + 1], replies[n]) == Do(fss[n], ops[n]);
    }
  }

  function Opens(name: Name, k: nat): seq<Op> {
    seq(k, _ => OpOpen(name, false))
  }

  /** One file, open on the first k handles. */
  function Taken(name: Name, k: nat): Model {
    Empty().(files := map[name := []], handles := seq(MAX_OPEN, h => if h < k then Handle(name, 0) else Closed))
  }

  lemma TakeNext(name: Name, k: nat)
    requires k < MAX_OPEN
    ensures AStep(Taken(name, k), OpOpen(name, false)) == Taken(name, k + 1)
  {
    FirstClosedAt(Taken(name, k).handles, 0, k);
    assert Taken(name, k).handles[k := Handle(name, 0)] == Taken(name, k + 1).handles;
  }

  lemma {:induction false} OpensTake(ops: seq<Op>, name: Name, k: nat)
    requires k <= MAX_OPEN && AExec(ops) == Taken(name, 0)
    ensures AExec(ops + Opens(name, k)) == Taken(name, k)
  {
    hide AStep;
    hide Taken;
    if k == 0 {
      assert ops + Opens(name, 0) == ops;
    } else {
      OpensTake(ops, name, k - 1);
      assert (ops + Opens(name, k))[..|ops| + k - 1] == ops + Opens(name, k - 1);
      TakeNext(name, k - 1);
    }
  }

  lemma {:induction false} FirstClosedAt(hs: seq<Handle>, from: nat, k: nat)
    requires from <= k < |hs| && hs[k] == Closed && forall h :: from <= h < k ==> hs[h].Handle?
    ensures FirstClosed(hs, from) == k
    decreases k - from
  {
    if from < k {
      FirstClosedAt(hs, from + 1, k);
    }
  }

  /** One run: create `a`, open it 16 times; opening `b` with creation then answers -1, and `b` is
      there. */
  lemma SeventeenthOpen()
    ensures var a, b: Name := [97], [98];
      var ops := [OpCreate(a)] + Opens(a, MAX_OPEN);
      && Sound(AExec(ops)) && ADo(AExec(ops), OpOpen(b, true)).1.code == -1
      && b !in AExec(ops).files && AExec(ops + [OpOpen(b, true)]).files == map[a := [], b := []]
  {
    var a, b: Name := [97], [98];
    var ops := [OpCreate(a)] + Opens(a, MAX_OPEN);
    assert [OpCreate(a)][..0] == [];
    assert AExec([OpCreate(a)]) == AStep(Empty(), OpCreate(a));
    assert AExec([OpCreate(a)]).handles == Taken(a, 0).handles;
    OpensTake([OpCreate(a)], a, MAX_OPEN);
    FirstClosedNone(AExec(ops).handles, 0);
    assert (ops + [OpOpen(b, true)])[..|ops|] == ops;
  }

  /** The one file an operation may change. */
  predicate Targets(a: Model, op: Op, x: Name) {
    match op
    case OpCreate(name) => x == name
    case OpOpen(name, create) => create && x == name
    case OpWrite(fd, _) => IsOpen(a, fd) && x == a.handles[fd].file
    case OpUnlink(name) => x == name
    case _ => false
  }

  /** Every other file stays, with the same bytes, whatever the operation replies. */
  lemma OthersUntouched(fs: Fs, op: Op, x: Name)
    requires Inv(fs) && Allowed(fs, op) && !Targets(Abs(fs), op, x)
    ensures Inv(Do(fs, op).0)
    ensures var m, m' := Abs(fs).files, Abs(Do(fs, op).0).files;
      (x in m <==> x in m') && (x in m ==> m'[x] == m[x])
  {
    hide Do;
    hide Inv;
    DoRefines(fs, op);
    hide Abs;
  }

  // ---- Create, write, remove -----------------------------------------------------------

  /** Two consistent disks with the same live inodes have the same block bitmap and counter. */
  lemma SameOwnersSameBits(d: Disk, d': Disk)
    requires BlocksInv(d) && BlocksInv(d') && d'.inodeBits == d.inodeBits
    requires forall i :: 0 <= i < MAX_INODES && d.inodeBits[i] ==> d'.inodes[i] == d.inodes[i]
    ensures d'.blockBits == d.blockBits && d'.freeBlocks == d.freeBlocks
  {
    forall i: nat, k: nat, b: nat
      ensures Owns(d', i, k, b) == Owns(d, i, k, b)
    {
    }
    forall b | 0 <= b < DATA_BLOCKS
      ensures d'.blockBits[b] == d.blockBits[b]
    {
      if d.blockBits[b] {
        var i: nat, k: nat :| Owns(d, i, k, b);
        assert Owns(d', i, k, b);
      }
      if d'.blockBits[b] {
        var i: nat, k: nat :| Owns(d', i, k, b);
        assert Owns(d, i, k, b);
      }
    }
  }

  ghost predicate SameBooks(d: Disk, d': Disk) {
    && d'.blockBits == d.blockBits && d'.inodeBits == d.inodeBits
    && d'.freeBlocks == d.freeBlocks && d'.freeInodes == d.freeInodes
  }

  /** A session on a fresh file: create, open, write, close. */
  ghost function Session(fs: Fs, name: Name, buf: seq<byte>): (Fs, int)
    requires Inv(fs) && 0 !in name
  {
    CreateRefines(fs, name);
    var fs1 := fs.(disk := Create(fs.disk, name).0);
    OpenRefines(fs1, name, false);
    var (fs2, fd) := Open(fs1, name, false);
    WriteRefines(fs2, fd, buf);
    (Close(Write(fs2, fd, buf).0, fd).0, fd)
  }

  lemma SessionInodes(fs: Fs, name: Name, buf: seq<byte>)
    requires Inv(fs) && 0 !in name && Create(fs.disk, name).1 == 0 && Session(fs, name, buf).1 >= 0
    ensures var d, d' := fs.disk, Session(fs, name, buf).0.disk;
      var i := FirstClear(d.inodeBits, 1);
      && i < MAX_INODES && !d.inodeBits[i] && FindInode(d'.dir, name) == i
      && Shaped(d') && d'.inodeBits == d.inodeBits[i := true]
      && d'.freeInodes == d.freeInodes - 1
      && (forall j :: 0 <= j < MAX_INODES && j != i ==> d'.inodes[j] == d.inodes[j])
  {
    CreateExact(fs.disk, name);
    CreateRefines(fs, name);
    var fs1 := fs.(disk := Create(fs.disk, name).0);
    OpenRefines(fs1, name, false);
    var (fs2, fd) := Open(fs1, name, false);
    FreshName(fs.disk, fs1.disk, name);
    WriteKeepsPlace(fs2, fd, buf);
  }

  lemma FreshName(d: Disk, d1: Disk, name: Name)
    requires DiskInv(d) && DiskInv(d1) && FindEntry(d.dir, 0, 0) < DIR_ENTRIES
    requires var e := FindEntry(d.dir, 0, 0);
      d1.dir[e].inode != 0 && NameAt(d1.dir, e) == name
    ensures FindInode(d1.dir, name) == d1.dir[FindEntry(d.dir, 0, 0)].inode
  {
    LiveEntry(d1, FindEntry(d.dir, 0, 0));
  }

  lemma SessionAbs(fs: Fs, name: Name, buf: seq<byte>)
    requires Inv(fs) && 0 !in name && Create(fs.disk, name).1 == 0 && Session(fs, name, buf).1 >= 0
    ensures var fs' := Session(fs, name, buf).0;
      && Inv(fs') && name !in Abs(fs).files && name in Abs(fs').files
      && Abs(fs').files - {name} == Abs(fs).files && Abs(fs').handles == Abs(fs).handles
      && fs'.fds == fs.fds[Session(fs, name, buf).1 := fs'.fds[Session(fs, name, buf).1]]
      && !fs'.fds[Session(fs, name, buf).1].valid
  {
    hide Inv;
    hide Abs;
    hide Create;
    hide Open;
    hide Write;
    hide ACreate;
    hide AOpen;
    hide AWrite;
    hide AClose;
    NameKnown(fs, name);
    CreateRefines(fs, name);
    var a := Abs(fs);
    var fs1 := fs.(disk := Create(fs.disk, name).0);
    OpenRefines(fs1, name, false);
    var (fs2, fd) := Open(fs1, name, false);
    WriteRefines(fs2, fd, buf);
    SessionFds(fs1, name, buf);
    var fs3 := Write(fs2, fd, buf).0;
    CloseRefines(fs3, fd);
    SessionModel(a, name, buf);
  }

  lemma SessionFds(fs1: Fs, name: Name, buf: seq<byte>)
    requires Inv(fs1) && 0 !in name && Open(fs1, name, false).1 >= 0
    ensures var (fs2, fd) := Open(fs1, name, false);
      && Inv(fs2) && ValidFd(fs2, fd) && fs2.fds == fs1.fds[fd := fs2.fds[fd]]
      && FdMapped(fs2, fd) && Write(fs2, fd, buf).0.fds == fs2.fds[fd := Write(fs2, fd, buf).0.fds[fd]]
      && ValidFd(Write(fs2, fd, buf).0, fd)
  {
    OpenInv(fs1, name, false);
    var (fs2, fd) := Open(fs1, name, false);
    WriteKeepsPlace(fs2, fd, buf);
  }

  lemma {:induction false} FirstClosedFact(hs: seq<Handle>, from: nat)
    requires from <= |hs|
    ensures FirstClosed(hs, from) < |hs| ==> hs[FirstClosed(hs, from)] == Closed
    decreases |hs| - from
  {
    if from < |hs| && !hs[from].Closed? {
      FirstClosedFact(hs, from + 1);
    }
  }

  lemma SessionModel(a: Model, name: Name, buf: seq<byte>)
    requires ACreate(a, name).1 == 0 && AOpen(ACreate(a, name).0, name, false).1 >= 0
    requires Sound(AOpen(ACreate(a, name).0, name, false).0)
    ensures var (a2, fd) := AOpen(ACreate(a, name).0, name, false);
      var a4 := AClose(AWrite(a2, fd, buf).0, fd).0;
      name !in a.files && name in a4.files && a4.files - {name} == a.files && a4.handles == a.handles
  {
    FirstClosedFact(a.handles, 0);
  }

  /** Creating a file, writing to it and removing it restores both bitmaps, both counters, every
      other file and the handle table. */
  lemma NoTrace(fs: Fs, name: Name, buf: seq<byte>)
    requires Inv(fs) && 0 !in name && Create(fs.disk, name).1 == 0 && Session(fs, name, buf).1 >= 0
    ensures var fs' := Session(fs, name, buf).0;
      && Inv(fs') && Allowed(fs', OpUnlink(name))
      && (UnlinkRefines(fs', name);
          var (fs'', rc) := Unlink(fs', name);
          rc == 0 && Inv(fs'') && SameBooks(fs.disk, fs''.disk) && Abs(fs'') == Abs(fs))
  {
    var fs' := Session(fs, name, buf).0;
    SessionInodes(fs, name, buf);
    SessionAbs(fs, name, buf);
    hide Session;
    forall g | 0 <= g < MAX_OPEN && fs'.fds[g].valid
      ensures fs'.fds[g].inode != FindInode(fs'.disk.dir, name)
    {
      assert FdOk(fs.disk, fs.fds[g]);
    }
    UnlinkRefines(fs', name);
    UnlinkBooks(fs, fs', name);
  }

  lemma UnlinkBooks(fs: Fs, fs': Fs, name: Name)
    requires Inv(fs) && Inv(fs') && FindInode(fs'.disk.dir, name) != 0 && Unlinkable(fs', name)
    requires forall e :: 0 <= e < DIR_ENTRIES ==> fs'.disk.dir[e].inode < MAX_INODES
    requires var d, d' := fs.disk, fs'.disk;
      var i := FindInode(d'.dir, name);
      && i < MAX_INODES && !d.inodeBits[i] && d'.inodeBits == d.inodeBits[i := true] && d'.freeInodes == d.freeInodes - 1
      && (forall j :: 0 <= j < MAX_INODES && j != i ==> d'.inodes[j] == d.inodes[j])
    ensures SameBooks(fs.disk, Unlink(fs', name).0.disk)
  {
    UnlinkExact(fs', name);
    UnlinkInvExactly(fs', name);
    var d'' := Unlink(fs', name).0.disk;
    hide Unlink;
    assert d''.inodeBits == fs.disk.inodeBits;
    SameOwnersSameBits(fs.disk, d'');
  }

  // ---- Reading back in chunks ----------------------------------------------------------

  function Left(fs: Fs, fd: int): nat
    requires FsShaped(fs)
  {
    if ValidFd(fs, fd) && fs.fds[fd].inode < MAX_INODES && fs.fds[fd].offset <= fs.disk.inodes[fs.fds[fd].inode].size
    then fs.disk.inodes[fs.fds[fd].inode].size - fs.fds[fd].offset else 0
  }

  /** Reads chunks of at most c bytes until one is empty, as `cat` does. */
  ghost function ReadAll(fs: Fs, fd: int, c: nat): (Fs, seq<byte>)
    requires Inv(fs) && c > 0
    decreases Left(fs, fd)
  {
    ReadInv(fs, fd, c);
    var (fs', bytes, n) := Read(fs, fd, c);
    if n <= 0 then (fs', [])
    else
      var (last, rest) := ReadAll(fs', fd, c);
      (last, bytes + rest)
  }

  /** For every chunk size the loop ends and delivers exactly the rest of the file. */
  lemma {:induction false} ReadBack(fs: Fs, fd: int, c: nat)
    requires Inv(fs) && c > 0 && ValidFd(fs, fd)
    ensures FdBacked(fs, fd)
    ensures var (last, bytes) := ReadAll(fs, fd, c);
      var f := fs.fds[fd];
      var content := Content(fs.disk, f.inode);
      && f.offset <= |content| && bytes == content[f.offset..]
      && last == fs.(fds := fs.fds[fd := f.(offset := |content|)])
    decreases Left(fs, fd)
  {
    hide Read;
    hide Inv;
    hide Content;
    hide FdBacked;
    ReadChunk(fs, fd, c);
    var (fs', bytes, n) := Read(fs, fd, c);
    if n > 0 {
      ReadBack(fs', fd, c);
      var f := fs.fds[fd];
      var content := Content(fs.disk, f.inode);
      assert Content(fs'.disk, f.inode) == content;
      assert content[f.offset..f.offset + n] + content[f.offset + n..] == content[f.offset..];
    }
  }
}
