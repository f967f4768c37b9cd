/** The file system invariant, and that every operation keeps it. */
module FsInv {
  import opened Bits
  import opened FsLayout
  import opened FsSpec

  /** Live inode i points to data block b from slot k. */
  predicate Owns(d: Disk, i: nat, k: nat, b: nat)
    requires Shaped(d)
  {
    i < MAX_INODES && k < DIRECT_BLOCKS && d.inodeBits[i] && d.inodes[i].blocks[k] == DATA_START + b
  }

  function BlocksFor(size: nat): nat {
    (size + BLOCK_SIZE - 1) / BLOCK_SIZE
  }

  /** Slot k is filled exactly when the file reaches into its k-th block. */
  predicate InodeOk(ino: Inode) {
    && Mapped(ino) && ino.size <= MAX_FILE_SIZE
    && (forall k :: 0 <= k < DIRECT_BLOCKS ==> (ino.blocks[k] != 0 <==> k * BLOCK_SIZE < ino.size))
  }

  function UsedBlocks(inodes: seq<Inode>, live: seq<bool>): nat
    requires |inodes| == |live|
  {
    if inodes == [] then 0
    else
      var n := |inodes| - 1;
      UsedBlocks(inodes[..n], live[..n]) + (if live[n] then BlocksFor(inodes[n].size) else 0)
  }

  ghost predicate Exclusive(d: Disk)
    requires Shaped(d)
  {
    forall i: nat, k: nat, j: nat, l: nat, b: nat :: Owns(d, i, k, b) && Owns(d, j, l, b) ==> i == j && k == l
  }

  /** Bitmap bit b is set iff some live inode points to block b. */
  ghost predicate BitsMatch(d: Disk)
    requires Shaped(d)
  {
    && (forall i: nat, k: nat, b: nat :: Owns(d, i, k, b) ==> b < DATA_BLOCKS && d.blockBits[b])
    && (forall b :: 0 <= b < DATA_BLOCKS && d.blockBits[b] ==> exists i: nat, k: nat :: Owns(d, i, k, b))
  }

  ghost predicate BlocksInv(d: Disk) {
    && Shaped(d)
    && (forall i :: 0 <= i < MAX_INODES && d.inodeBits[i] ==> InodeOk(d.inodes[i]))
    && Exclusive(d) && BitsMatch(d)
    && CountSet(d.blockBits) == UsedBlocks(d.inodes, d.inodeBits)
    && d.freeBlocks == DATA_BLOCKS - CountSet(d.blockBits)
  }

  function LiveMarks(dir: seq<DirEntry>): (m: seq<bool>)
    ensures |m| == |dir|
  {
    seq(|dir|, e requires 0 <= e < |dir| => dir[e].inode != 0)
  }

  function Files(d: Disk): nat {
    CountSet(LiveMarks(d.dir))
  }

  predicate EntryOk(d: Disk, e: nat)
    requires Shaped(d) && e < DIR_ENTRIES
  {
    d.dir[e].inode != 0 ==>
      d.dir[e].inode <= DIR_ENTRIES && d.inodeBits[d.dir[e].inode] && GoodName(NameAt(d.dir, e))
  }

  ghost predicate Distinct(dir: seq<DirEntry>) {
    forall e, f :: 0 <= e < f < |dir| && dir[e].inode != 0 && dir[f].inode != 0 ==>
      dir[e].inode != dir[f].inode && NameAt(dir, e) != NameAt(dir, f)
  }

  ghost predicate Held(d: Disk)
    requires Shaped(d)
  {
    forall i :: 0 <= i < MAX_INODES && d.inodeBits[i] ==> i != 0 && FindEntry(d.dir, i, 0) < DIR_ENTRIES
  }

  /** Live entries have distinct good names and distinct inodes, and hold exactly the live inodes. */
  ghost predicate DirInv(d: Disk) {
    && Shaped(d)
    && (forall e :: 0 <= e < DIR_ENTRIES ==> EntryOk(d, e))
    && Distinct(d.dir) && Held(d)
    && CountSet(d.inodeBits) == Files(d)
    && d.freeInodes == MAX_INODES - 1 - Files(d)
  }

  predicate FdOk(d: Disk, f: Desc)
    requires Shaped(d)
  {
    f.valid ==> f.inode < MAX_INODES && d.inodeBits[f.inode] && f.offset <= d.inodes[f.inode].size
  }

  ghost predicate Inv(fs: Fs) {
    && FsShaped(fs) && BlocksInv(fs.disk) && DirInv(fs.disk)
    && (forall fd :: 0 <= fd < MAX_OPEN ==> FdOk(fs.disk, fs.fds[fd]))
  }

  // ---- Counting ------------------------------------------------------------------------

  lemma {:induction false} UsedBlocksUpdate(inodes: seq<Inode>, live: seq<bool>, i: nat, ino: Inode, v: bool)
    requires |inodes| == |live| && i < |inodes|
    ensures UsedBlocks(inodes[i := ino], live[i := v]) ==
      UsedBlocks(inodes, live) - (if live[i] then BlocksFor(inodes[i].size) else 0) + (if v then BlocksFor(ino.size) else 0)
  {
    var n := |inodes| - 1;
    if i == n {
      assert inodes[i := ino][..n] == inodes[..n] && live[i := v][..n] == live[..n];
    } else {
      assert inodes[i := ino][..n] == inodes[..n][i := ino] && live[i := v][..n] == live[..n][i := v];
      UsedBlocksUpdate(inodes[..n], live[..n], i, ino, v);
    }
  }

  lemma {:induction false} UsedBlocksNone(inodes: seq<Inode>, live: seq<bool>)
    requires |inodes| == |live| && forall i :: 0 <= i < |live| ==> !live[i]
    ensures UsedBlocks(inodes, live) == 0
  {
    if inodes != [] {
      UsedBlocksNone(inodes[..|inodes| - 1], live[..|inodes| - 1]);
    }
  }

  lemma FilesUpdate(dir: seq<DirEntry>, e: nat, entry: DirEntry)
    requires e < |dir|
    ensures CountSet(LiveMarks(dir[e := entry])) ==
      CountSet(LiveMarks(dir)) - (if dir[e].inode != 0 then 1 else 0) + (if entry.inode != 0 then 1 else 0)
  {
    assert LiveMarks(dir[e := entry]) == LiveMarks(dir)[e := entry.inode != 0];
    CountSetUpdate(LiveMarks(dir), e, entry.inode != 0);
  }

  // ---- Format --------------------------------------------------------------------------

  /** A freshly formatted disk with every descriptor closed satisfies the invariant. */
  lemma FormattedInv(fs: Fs)
    requires FsShaped(fs) && fs.disk == Formatted() && forall fd :: 0 <= fd < MAX_OPEN ==> !fs.fds[fd].valid
    ensures Inv(fs)
  {
    var d := fs.disk;
    CountSetNone(d.blockBits);
    CountSetNone(d.inodeBits);
    CountSetNone(LiveMarks(d.dir));
    UsedBlocksNone(d.inodes, d.inodeBits);
  }

  // ---- Create --------------------------------------------------------------------------

  /** Fewer files than directory entries: a low inode number is clear. */
  lemma LowInodeFree(d: Disk)
    requires DirInv(d) && Files(d) < DIR_ENTRIES
    ensures 1 <= FirstClear(d.inodeBits, 1) <= DIR_ENTRIES
  {
    var i := FirstClear(d.inodeBits, 1);
    if i > DIR_ENTRIES {
      CountSetPrefix(d.inodeBits, 1, i);
    }
  }

  /** A free entry exists exactly when fewer than 128 files do. */
  lemma FreeEntryIff(d: Disk)
    requires Shaped(d)
    ensures FindEntry(d.dir, 0, 0) == DIR_ENTRIES <==> Files(d) == DIR_ENTRIES
  {
    var e := FindEntry(d.dir, 0, 0);
    if e == DIR_ENTRIES {
      CountSetAll(LiveMarks(d.dir));
    } else {
      FilesUpdate(d.dir, e, DirEntry(d.dir[e].name, 1));
    }
  }

  /** Inode allocation touches no block: ownership is what it was. */
  lemma AllocInodeBlocks(d: Disk)
    requires BlocksInv(d) && FirstClear(d.inodeBits, 1) < MAX_INODES
    ensures BlocksInv(AllocInode(d).0)
  {
    var (d', i) := AllocInode(d);
    forall j: nat, k: nat, b: nat
      ensures Owns(d', j, k, b) == Owns(d, j, k, b)
    {
    }
    UsedBlocksUpdate(d.inodes, d.inodeBits, i, Inode(0, NO_BLOCKS), true);
    forall b | 0 <= b < DATA_BLOCKS && d'.blockBits[b]
      ensures exists j: nat, k: nat :: Owns(d', j, k, b)
    {
      var j: nat, k: nat :| Owns(d, j, k, b);
      assert Owns(d', j, k, b);
    }
  }

  lemma FindEntryUpdate(dir: seq<DirEntry>, e: nat, entry: DirEntry, i: nat)
    requires e < |dir|
    ensures FindEntry(dir[e := entry], i, 0) < |dir| <==>
      entry.inode == i || exists f :: 0 <= f < |dir| && f != e && dir[f].inode == i
  {
    var dir' := dir[e := entry];
    var g := FindEntry(dir', i, 0);
    if entry.inode == i {
      assert dir'[e].inode == i;
    } else if f :| 0 <= f < |dir| && f != e && dir[f].inode == i {
      assert dir'[f].inode == i;
    } else if g < |dir| {
      assert g != e && dir[g].inode == i;
    }
  }

  lemma PaddedName(name: Name)
    requires GoodName(name) && 0 !in name
    ensures CString(Padded(name)) == name
  {
    assert Padded(name)[..|name|] == name;
    CStringIs(Padded(name), |name|);
  }

  /** Creation succeeds exactly when the name is good and new and there is a free entry; the inode
      table never runs out first. It keeps the invariant and adds one entry with an empty inode. */
  lemma CreateExact(d: Disk, name: Name)
    requires BlocksInv(d) && DirInv(d) && 0 !in name
    ensures var (d', rc) := Create(d, name);
      && BlocksInv(d') && DirInv(d')
      && (rc == 0 <==> GoodName(name) && FindName(d.dir, name, 0) == DIR_ENTRIES && Files(d) < DIR_ENTRIES)
      && (rc != 0 ==> rc == -1 && d' == d)
      && (rc == 0 ==>
          var e := FindEntry(d.dir, 0, 0);
          var i := FirstClear(d.inodeBits, 1);
          && e < DIR_ENTRIES && 1 <= i <= DIR_ENTRIES && !d.inodeBits[i] && d.dir[e].inode == 0
          && d' == d.(dir := d.dir[e := DirEntry(Padded(name), i)], inodeBits := d.inodeBits[i := true],
                      freeInodes := d.freeInodes - 1, inodes := d.inodes[i := Inode(0, NO_BLOCKS)])
          && NameAt(d'.dir, e) == name)
  {
    hide CString;
    hide Padded;
    hide CountSet;
    var (d', rc) := Create(d, name);
    FreeEntryIff(d);
    if Files(d) < DIR_ENTRIES {
      LowInodeFree(d);
    }
    FindInodeIff(d, name);
    if rc == 0 {
      AllocInodeBlocks(d);
      BlocksIgnoreDir(AllocInode(d).0, d'.dir);
      PaddedName(name);
      CreateDir(d, name);
    }
  }

  lemma FindInodeIff(d: Disk, name: Name)
    requires DirInv(d)
    ensures FindInode(d.dir, name) == 0 <==> FindName(d.dir, name, 0) == DIR_ENTRIES
  {
  }

  /** Block ownership does not look at the directory. */
  lemma BlocksIgnoreDir(d: Disk, dir: seq<DirEntry>)
    requires BlocksInv(d) && Shaped(d.(dir := dir))
    ensures BlocksInv(d.(dir := dir))
  {
    var d' := d.(dir := dir);
    assert forall j: nat, k: nat, b: nat :: Owns(d', j, k, b) == Owns(d, j, k, b);
    forall b | 0 <= b < DATA_BLOCKS && d'.blockBits[b]
      ensures exists j: nat, k: nat :: Owns(d', j, k, b)
    {
      var j: nat, k: nat :| Owns(d, j, k, b);
      assert Owns(d', j, k, b);
    }
  }

  /** The new entry is sound and clashes with none of the old ones. */
  lemma CreateEntries(d: Disk, name: Name)
    requires DirInv(d) && Create(d, name).1 == 0 && GoodName(name) && 0 !in name
    requires FirstClear(d.inodeBits, 1) <= DIR_ENTRIES && CString(Padded(name)) == name
    ensures var d', i := Create(d, name).0, FirstClear(d.inodeBits, 1);
      && Shaped(d')
      && (forall f :: 0 <= f < DIR_ENTRIES ==> EntryOk(d', f))
      && forall f :: 0 <= f < DIR_ENTRIES && f != FindEntry(d.dir, 0, 0) && d.dir[f].inode != 0 ==>
           d.dir[f].inode != i && NameAt(d.dir, f) != name
  {
    var d', i := Create(d, name).0, FirstClear(d.inodeBits, 1);
    FindInodeIff(d, name);
    forall f | 0 <= f < DIR_ENTRIES
      ensures EntryOk(d', f)
      ensures f != FindEntry(d.dir, 0, 0) && d.dir[f].inode != 0 ==> d.dir[f].inode != i && NameAt(d.dir, f) != name
    {
      assert EntryOk(d, f) && !Named(d.dir, f, name);
    }
  }

  lemma CreateDir(d: Disk, name: Name)
    requires DirInv(d) && Create(d, name).1 == 0 && GoodName(name) && 0 !in name
    requires FirstClear(d.inodeBits, 1) <= DIR_ENTRIES
    requires CString(Padded(name)) == name
    ensures DirInv(Create(d, name).0)
  {
    hide CountSet;
    hide Padded;
    hide CString;
    hide EntryOk;
    var d' := Create(d, name).0;
    var e := FindEntry(d.dir, 0, 0);
    var i := FirstClear(d.inodeBits, 1);
    var entry := DirEntry(Padded(name), i);
    assert d'.dir == d.dir[e := entry];
    CountSetUpdate(d.inodeBits, i, true);
    FilesUpdate(d.dir, e, entry);
    CreateEntries(d, name);
    DistinctUpdate(d.dir, e, entry);
    forall j | 0 <= j < MAX_INODES && d'.inodeBits[j]
      ensures j != 0 && FindEntry(d'.dir, j, 0) < DIR_ENTRIES
    {
      FindEntryUpdate(d.dir, e, entry, j);
    }
  }

  lemma DistinctUpdate(dir: seq<DirEntry>, e: nat, entry: DirEntry)
    requires e < |dir| && Distinct(dir)
    requires entry.inode != 0 ==> forall f :: 0 <= f < |dir| && f != e && dir[f].inode != 0 ==>
      dir[f].inode != entry.inode && NameAt(dir, f) != CString(entry.name)
    ensures Distinct(dir[e := entry])
  {
    var dir' := dir[e := entry];
    forall f, g | 0 <= f < g < |dir| && dir'[f].inode != 0 && dir'[g].inode != 0
      ensures dir'[f].inode != dir'[g].inode && NameAt(dir', f) != NameAt(dir', g)
    {
      assert f != e ==> NameAt(dir', f) == NameAt(dir, f);
      assert g != e ==> NameAt(dir', g) == NameAt(dir, g);
    }
  }
}
