/** The shell's file commands, kernel/kernel.c, as clients of the file system. Only `cat` and
    `write` run more than one operation. */
module Shell {
  import opened Bits
  import opened FsLayout
  import opened FsSpec
  import opened FsInv
  import opened FsPreserve
  import opened FsAbs
  import opened FsWrite
  import opened FsRuns
  import opened CStrings
  import opened FileSystem

  const CAT_CHUNK := 255
  const NAME_BUFFER := 64

  // ---- cat -----------------------------------------------------------------------------

  lemma ReadAllStep(fs: Fs, fd: int)
    requires Inv(fs) && ValidFd(fs, fd)
    ensures FdBacked(fs, fd)
    ensures var (fs', bytes, n) := Read(fs, fd, CAT_CHUNK);
      && Inv(fs') && ValidFd(fs', fd)
      && (n <= 0 ==> ReadAll(fs, fd, CAT_CHUNK) == (fs', []))
      && (n > 0 ==> |bytes| == n && Left(fs', fd) < Left(fs, fd)
                    && ReadAll(fs, fd, CAT_CHUNK) == (ReadAll(fs', fd, CAT_CHUNK).0, bytes + ReadAll(fs', fd, CAT_CHUNK).1)
                    && (n == CAT_CHUNK || (n < CAT_CHUNK && ReadAll(fs', fd, CAT_CHUNK).1 == [])))
  {
    hide Inv;
    hide Read;
    hide Content;
    FdPlace(fs, fd);
    ReadChunk(fs, fd, CAT_CHUNK);
    ContentSize(fs, fd);
    var (fs', _, n) := Read(fs, fd, CAT_CHUNK);
    if n > 0 {
      ReadBack(fs', fd, CAT_CHUNK);
    }
  }

  /** Opening, reading to the end and closing gives the file's bytes and changes nothing. */
  lemma CatSession(fs: Fs, name: Name)
    requires Inv(fs) && 0 !in name && Open(fs, name, false).1 >= 0
    ensures var (fs1, fd) := Open(fs, name, false);
      && Inv(fs1) && ValidFd(fs1, fd)
      && var (last, bytes) := ReadAll(fs1, fd, CAT_CHUNK);
      && Inv(last) && ValidFd(last, fd) && Inv(Close(last, fd).0)
      && name in Abs(fs).files && bytes == Abs(fs).files[name]
      && Abs(Close(last, fd).0) == Abs(fs)
  {
    hide Inv;
    hide ReadAll;
    hide Content;
    OpenRefines(fs, name, false);
    var (fs1, fd) := Open(fs, name, false);
    AbsHandle(fs1, fd);
    ReadBack(fs1, fd, CAT_CHUNK);
    var last := ReadAll(fs1, fd, CAT_CHUNK).0;
    SeekInv(fs1, fd, last.fds[fd].offset);
    CloseRefines(last, fd);
    FirstClosedFact(Abs(fs).handles, 0);
  }

  /** What reaches the screen: each chunk up to its first NUL, as vga_puts stops there. */
  function Shown(content: seq<byte>): (r: seq<byte>)
    ensures |r| <= |content|
  {
    if content == [] then []
    else
      var n := Min(|content|, CAT_CHUNK);
      CString(content[..n]) + Shown(content[n..])
  }

  /** "Displays exact contents that were written": exactly when no byte of the file is NUL. */
  lemma {:induction false} ShownExactly(content: seq<byte>)
    ensures Shown(content) == content <==> 0 !in content
  {
    if content != [] {
      var n := Min(|content|, CAT_CHUNK);
      var chunk, rest := content[..n], content[n..];
      ShownExactly(rest);
      assert content == chunk + rest;
      if |CString(chunk)| < |chunk| {
        assert chunk[|CString(chunk)|] == 0;
        assert |Shown(content)| < |content|;
      } else {
        assert CString(chunk) == chunk;
        assert Shown(content)[n..] == Shown(rest);
      }
    }
  }

  /** Chunk by chunk: 255 bytes at a time, each up to its first NUL. */
  lemma ShownChunks(content: seq<byte>)
    ensures |content| <= 255 ==> Shown(content) == CString(content)
    ensures |content| > 255 ==> Shown(content) == CString(content[..255]) + Shown(content[255..])
  {
    if 0 < |content| <= 255 {
      assert content[..|content|] == content;
    }
  }

  /** The part of a buffer before its first NUL is that of the bytes read into it. */
  lemma {:induction false} ChunkString(buffer: seq<byte>, n: nat)
    requires n < |buffer| && buffer[n] == 0
    ensures CString(buffer) == CString(buffer[..n])
  {
    if n > 0 && buffer[0] != 0 {
      ChunkString(buffer[1..], n - 1);
      assert buffer[1..][..n - 1] == buffer[..n][1..];
    }
  }

  /** `cat` shows the file's bytes, each chunk up to its first NUL, and leaves files and handles as
      they were. It reports no such file exactly when the name is empty or unknown, or every handle
      is taken. */
  method CmdCat(fs: RamDisk, args: array<byte>) returns (found: bool, screen: seq<byte>)
    requires fs.Valid() && fs.Outside(args) && 0 in args[..]
    modifies fs.ramdisk, fs.openFiles
    ensures fs.Valid() && Abs(fs.State()) == old(Abs(fs.State()))
    ensures var a, name := Abs(fs.State()), CString(args[..]);
      && (found <==> name != [] && name in a.files && FirstClosed(a.handles, 0) < |a.handles|)
      && (found ==> screen == Shown(a.files[name]))
  {
    hide Inv;
    hide Abs;
    hide Open;
    hide Close;
    hide Decode;
    hide CString;
    found, screen := false, [];
    var len := Strlen(args);
    if len == 0 {
      return;
    }
    ghost var fs0 := fs.State();
    OpenRefines(fs0, CString(args[..]), false);
    var fd := fs.FsOpen(args, false);
    if fd < 0 {
      return;
    }
    CatSession(fs0, CString(args[..]));
    found := true;
    screen := CatLoop(fs, fd);
    var rc := fs.FsClose(fd);
  }

  /** The read loop of `cat`: the buffer is ended with a NUL and printed as a string. */
  method CatLoop(fs: RamDisk, fd: nat) returns (screen: seq<byte>)
    requires fs.Valid() && ValidFd(fs.State(), fd)
    modifies fs.openFiles
    ensures fs.Valid()
    ensures var (last, bytes) := ReadAll(old(fs.State()), fd, CAT_CHUNK);
      fs.State() == last && screen == Shown(bytes)
  {
    hide Inv;
    hide Decode;
    hide Read;
    hide ReadAll;
    hide Left;
    hide FdBacked;
    hide CString;
    hide Shown;
    var buffer := new byte[CAT_CHUNK + 1];
    ghost var all := ReadAll(fs.State(), fd, CAT_CHUNK);
    screen := [];
    assert [] + Shown(all.1) == Shown(all.1);
    var n := 1;
    while n > 0
      invariant fs.Valid() && fs.Outside(buffer) && fresh(buffer)
      invariant n > 0 ==> ValidFd(fs.State(), fd)
      invariant n > 0 ==> all.0 == ReadAll(fs.State(), fd, CAT_CHUNK).0
      invariant n > 0 ==> Shown(all.1) == screen + Shown(ReadAll(fs.State(), fd, CAT_CHUNK).1)
      invariant n <= 0 ==> all.0 == fs.State() && Shown(all.1) == screen
      decreases n > 0, Left(fs.State(), fd)
    {
      ghost var now := fs.State();
      ReadAllStep(now, fd);
      ghost var bytes := Read(now, fd, CAT_CHUNK).1;
      n := fs.FsRead(fd, buffer, CAT_CHUNK);
      if n > 0 {
        assert buffer[..n] == bytes;
        ghost var rest := ReadAll(fs.State(), fd, CAT_CHUNK).1;
        buffer[n] := 0;
        ChunkString(buffer[..], n);
        assert buffer[..][..n] == bytes;
        var text := Puts(buffer);
        ShownStep(bytes, rest);
        assert screen + (text + Shown(rest)) == (screen + text) + Shown(rest);
        screen := screen + text;
      } else {
        ShownNothing(screen);
      }
    }
  }

  lemma ShownStep(bytes: seq<byte>, rest: seq<byte>)
    requires 0 < |bytes| <= CAT_CHUNK && (|bytes| == CAT_CHUNK || rest == [])
    ensures Shown(bytes + rest) == CString(bytes) + Shown(rest)
  {
    assert (bytes + rest)[..|bytes|] == bytes && (bytes + rest)[|bytes|..] == rest;
  }

  lemma ShownNothing(screen: seq<byte>)
    ensures screen + Shown([]) == screen
  {
  }

  /** vga_puts: the characters up to the NUL. */
  method Puts(s: array<byte>) returns (out: seq<byte>)
    requires 0 in s[..]
    ensures out == CString(s[..])
  {
    ghost var end :| 0 <= end < s.Length && s[end] == 0;
    out := [];
    var i := 0;
    while s[i] != 0
      invariant 0 <= i <= end && out == s[..i] && 0 !in out
      decreases end - i
    {
      out := out + [s[i]];
      i := i + 1;
    }
    CStringIs(s[..], i);
    assert s[..][..i] == s[..i];
  }

  // ---- write ---------------------------------------------------------------------------

  /** How `write` splits its argument: the name ends at the first space and is cut to fit the
      64-byte buffer; the text starts after the spaces. */
  function FirstSpace(s: seq<byte>): (k: nat)
    ensures k <= |s| && (k < |s| ==> s[k] == 32) && forall j :: 0 <= j < k ==> s[j] != 32
  {
    if s == [] || s[0] == 32 then 0 else 1 + FirstSpace(s[1..])
  }

  function SkipSpaces(s: seq<byte>): (t: seq<byte>)
    ensures |t| <= |s| && t == s[|s| - |t|..] && (t != [] ==> t[0] != 32)
  {
    if s == [] || s[0] != 32 then s else SkipSpaces(s[1..])
  }

  function FileArg(args: Name): Name {
    args[..Min(FirstSpace(args), NAME_BUFFER - 1)]
  }

  function TextArg(args: Name): Name
    requires FirstSpace(args) < |args|
  {
    SkipSpaces(args[FirstSpace(args) + 1..])
  }

  /** The simple sequence `write` stands for: open or create, write from the start, close. */
  ghost function AWriteCommand(a: Model, name: Name, text: seq<byte>): Model {
    var (a1, fd) := AOpen(a, name, true);
    if fd < 0 || !Sound(a1) then a1 else AClose(AWrite(a1, fd, text).0, fd).0
  }

  /** What fs_write answers within it; -1 if the file cannot be opened. */
  ghost function WriteCommandCount(a: Model, name: Name, text: seq<byte>): int {
    var (a1, fd) := AOpen(a, name, true);
    if fd < 0 || !Sound(a1) then -1 else AWrite(a1, fd, text).1
  }

  lemma {:induction false} FirstSpaceIs(s: seq<byte>, k: nat)
    requires k < |s| && s[k] == 32 && forall j :: 0 <= j < k ==> s[j] != 32
    ensures FirstSpace(s) == k
  {
    if k > 0 {
      FirstSpaceIs(s[1..], k - 1);
    }
  }

  lemma {:induction false} FirstSpaceNone(s: seq<byte>)
    requires 32 !in s
    ensures FirstSpace(s) == |s|
  {
    if s != [] {
      FirstSpaceNone(s[1..]);
    }
  }

  lemma {:induction false} SkipSpacesIs(s: seq<byte>, k: nat)
    requires k <= |s| && (forall j :: 0 <= j < k ==> s[j] == 32) && (k < |s| ==> s[k] != 32)
    ensures SkipSpaces(s) == s[k..]
  {
    if k > 0 {
      SkipSpacesIs(s[1..], k - 1);
    }
  }

  /** The name is what stands before the first space, or its first 63 bytes; the text is what stands
      after that space and those that follow it. */
  lemma ArgumentsAre(name: Name, spaces: nat, text: Name)
    requires 32 !in name && (text == [] || text[0] != 32)
    ensures var arg := name + [32] + seq(spaces, _ => 32) + text;
      && FirstSpace(arg) == |name| < |arg|
      && FileArg(arg) == (if |name| <= 63 then name else name[..63])
      && TextArg(arg) == text
  {
    hide FirstSpace;
    hide SkipSpaces;
    var blanks: Name := seq(spaces, _ => 32);
    var arg := name + [32] + blanks + text;
    forall j | 0 <= j < |name|
      ensures arg[j] != 32
    {
      assert arg[j] == name[j];
    }
    FirstSpaceIs(arg, |name|);
    assert arg[..|name|] == name;
    assert |name| > 63 ==> arg[..63] == name[..63];
    var start := |name| + 1 + spaces;
    assert arg[start..] == text;
    forall j | |name| + 1 <= j < start
      ensures arg[j] == 32
    {
      assert arg[j] == blanks[j - |name| - 1];
    }
    TextArgIs(arg, start);
  }

  /** With no space there is no text. */
  lemma NoTextArgument(arg: Name)
    ensures FirstSpace(arg) == |arg| <==> 32 !in arg
  {
    if 32 !in arg {
      FirstSpaceNone(arg);
    }
  }

  /** `write <name> <text>` writes over the start of the file, creating it if it can, and answers what
      fs_write answered; with no space in its argument it does nothing. */
  method CmdWrite(fs: RamDisk, args: array<byte>) returns (written: int)
    requires fs.Valid() && fs.Outside(args) && 0 in args[..]
    modifies fs.ramdisk, fs.openFiles
    ensures fs.Valid()
    ensures var arg, a := CString(args[..]), old(Abs(fs.State()));
      (Abs(fs.State()), written) == if FirstSpace(arg) == |arg| then (a, -1)
        else (AWriteCommand(a, FileArg(arg), TextArg(arg)), WriteCommandCount(a, FileArg(arg), TextArg(arg)))
  {
    hide Inv;
    hide Abs;
    hide Open;
    hide Close;
    hide Write;
    hide Decode;
    hide AWrite;
    hide AOpen;
    hide AClose;
    hide CString;
    hide FirstSpace;
    hide SkipSpaces;
    written := -1;
    ghost var arg := CString(args[..]);
    var space := FindSpace(args);
    if args[space] == 0 {
      return;
    }
    var filename := NameBuffer(args, space);
    var text := TextBuffer(args, space);
    ghost var fs0 := fs.State();
    OpenRefines(fs0, FileArg(arg), true);
    var fd := fs.FsOpen(filename, true);
    if fd < 0 {
      return;
    }
    WriteRefines(fs.State(), fd, TextArg(arg));
    assert text[..text.Length] == text[..];
    written := fs.FsWrite(fd, text, text.Length);
    CloseRefines(fs.State(), fd);
    var rc := fs.FsClose(fd);
  }

  method FindSpace(args: array<byte>) returns (k: nat)
    requires 0 in args[..]
    ensures k < args.Length && k == FirstSpace(CString(args[..]))
    ensures args[k] == 0 <==> k == |CString(args[..])|
  {
    CStringEnds(args[..]);
    ghost var arg := CString(args[..]);
    assert forall j :: 0 <= j < |arg| ==> arg[j] == args[j] && arg[j] != 0;
    k := 0;
    while args[k] != 0 && args[k] != 32
      invariant 0 <= k <= |arg| < args.Length && forall j :: 0 <= j < k ==> arg[j] != 32
      decreases |arg| - k
    {
      k := k + 1;
    }
    if k < |arg| {
      FirstSpaceIs(arg, k);
    } else {
      FirstSpaceNone(arg);
    }
  }

  method NameBuffer(args: array<byte>, space: nat) returns (filename: array<byte>)
    requires 0 in args[..] && space == FirstSpace(CString(args[..]))
    ensures fresh(filename) && 0 in filename[..] && CString(filename[..]) == FileArg(CString(args[..]))
  {
    hide CString;
    hide FirstSpace;
    ghost var arg := CString(args[..]);
    assert forall j :: 0 <= j < |arg| ==> arg[j] == args[j] && arg[j] != 0;
    filename := new byte[NAME_BUFFER];
    var len := space;
    if len >= NAME_BUFFER {
      len := NAME_BUFFER - 1;
    }
    var i := 0;
    while i < len
      invariant 0 <= i <= len && forall j :: 0 <= j < i ==> filename[j] == arg[j]
    {
      filename[i] := args[i];
      i := i + 1;
    }
    filename[len] := 0;
    assert filename[..][..len] == arg[..len];
    CStringIs(filename[..], len);
  }

  /** The text after the spaces, as the caller's pointer into the command line sees it. */
  method TextBuffer(args: array<byte>, space: nat) returns (text: array<byte>)
    requires 0 in args[..] && space == FirstSpace(CString(args[..])) < |CString(args[..])|
    ensures fresh(text) && text[..] == TextArg(CString(args[..]))
  {
    hide CString;
    hide FirstSpace;
    hide SkipSpaces;
    hide TextArg;
    hide Store;
    CStringEnds(args[..]);
    ghost var arg := CString(args[..]);
    assert forall j :: 0 <= j < |arg| ==> arg[j] == args[j] && arg[j] != 0;
    var start := space + 1;
    while args[start] == 32
      invariant space + 1 <= start <= |arg| && forall j :: space + 1 <= j < start ==> arg[j] == 32
      decreases |arg| - start
    {
      start := start + 1;
    }
    TextArgIs(arg, start);
    var len := Strlen(args);
    text := new byte[len - start];
    StoreWhole(text[..], args[start..len]);
    Memcpy(text, 0, args, start, len - start);
    assert args[start..len] == arg[start..];
  }

  lemma TextArgIs(arg: Name, start: nat)
    requires FirstSpace(arg) < start <= |arg|
    requires forall j :: FirstSpace(arg) + 1 <= j < start ==> arg[j] == 32
    requires start < |arg| ==> arg[start] != 32
    ensures TextArg(arg) == arg[start..]
  {
    hide SkipSpaces;
    hide FirstSpace;
    var rest := arg[FirstSpace(arg) + 1..];
    SkipSpacesIs(rest, start - FirstSpace(arg) - 1);
    assert rest[start - FirstSpace(arg) - 1..] == arg[start..];
  }

  lemma StoreWhole(s: seq<byte>, bs: seq<byte>)
    requires |bs| == |s|
    ensures Store(s, 0, bs) == bs
  {
  }

  /** What `write` does to the file, given a free handle and room: its first bytes become the text. */
  lemma WriteCommandExact(a: Model, name: Name, text: seq<byte>)
    requires Sound(a) && FirstClosed(a.handles, 0) < |a.handles|
    requires name in a.files || (GoodName(name) && |a.files| < DIR_ENTRIES)
    ensures var c := if name in a.files then a.files[name] else [];
      var n := Max(0, Min(|text|, Capacity(|c|, a.free)));
      var a' := AWriteCommand(a, name, text);
      && a'.files == a.files[name := Splice(c, 0, text[..n])]
      && a'.handles == a.handles
  {
    hide AWrite;
    hide Splice;
    hide Capacity;
    FirstClosedFact(a.handles, 0);
    var (a1, fd) := AOpen(a, name, true);
    assert a1.handles == a.handles[fd := Handle(name, 0)];
    OpenSound(a, name);
    WriteFresh(a1, fd, text);
    assert a.handles[fd := Closed] == a.handles;
  }

  lemma OpenSound(a: Model, name: Name)
    requires Sound(a)
    ensures Sound(AOpen(a, name, true).0)
  {
  }

  /** A write through a handle at the start of its file. */
  lemma WriteFresh(a: Model, fd: int, text: seq<byte>)
    requires Sound(a) && IsOpen(a, fd) && a.handles[fd].offset == 0
    ensures var h := a.handles[fd];
      var c := a.files[h.file];
      var n := Max(0, Min(|text|, Capacity(|c|, a.free)));
      var a' := AWrite(a, fd, text).0;
      && a'.files == a.files[h.file := Splice(c, 0, text[..n])]
      && a'.handles == a.handles[fd := h.(offset := n)]
  {
    hide Splice;
    hide Capacity;
  }

  /** With every handle taken the command creates at most an empty file. */
  lemma WriteCommandNoHandle(a: Model, name: Name, text: seq<byte>)
    requires Sound(a) && FirstClosed(a.handles, 0) == |a.handles|
    ensures AWriteCommand(a, name, text) == ACreate(a, name).0
  {
  }

  lemma SpliceStart(c: seq<byte>, bs: seq<byte>)
    ensures Splice(c, 0, bs) == bs + if |bs| < |c| then c[|bs|..] else []
  {
  }

  /** The file becomes the text over its old bytes, as far as it is accepted, and the number reported
      is how far that is. */
  lemma WriteEffect(a: Model, name: Name, text: seq<byte>)
    requires Sound(a) && FirstClosed(a.handles, 0) < |a.handles|
    requires name in a.files || (1 <= |name| <= 27 && |a.files| < 128)
    ensures var a', n := AWriteCommand(a, name, text), WriteCommandCount(a, name, text);
      var c := if name in a.files then a.files[name] else [];
      && 0 <= n <= |text| && n == Max(0, Min(|text|, Capacity(|c|, a.free)))
      && a'.handles == a.handles
      && a'.files == a.files[name := text[..n] + if n < |c| then c[n..] else []]
  {
    hide AWriteCommand;
    hide WriteCommandCount;
    hide Splice;
    hide Capacity;
    hide Sound;
    hide FirstClosed;
    WriteCommandExact(a, name, text);
    CountExact(a, name, text);
    var c := if name in a.files then a.files[name] else [];
    SpliceStart(c, text[..Max(0, Min(|text|, Capacity(|c|, a.free)))]);
  }

  /** The same of the command line `write name text`. */
  lemma WriteLine(a: Model, name: Name, spaces: nat, text: Name)
    requires Sound(a) && 32 !in name && |name| <= 63 && (text == [] || text[0] != 32)
    requires FirstClosed(a.handles, 0) < |a.handles|
    requires name in a.files || (1 <= |name| <= 27 && |a.files| < 128)
    ensures var arg := name + [32] + seq(spaces, _ => 32) + text;
      FirstSpace(arg) < |arg| &&
      var a', n := AWriteCommand(a, FileArg(arg), TextArg(arg)), WriteCommandCount(a, FileArg(arg), TextArg(arg));
      var c := if name in a.files then a.files[name] else [];
      && 0 <= n <= |text| && n == Max(0, Min(|text|, Capacity(|c|, a.free)))
      && a'.handles == a.handles
      && a'.files == a.files[name := text[..n] + if n < |c| then c[n..] else []]
  {
    hide AWriteCommand;
    hide WriteCommandCount;
    hide Capacity;
    hide Sound;
    hide FirstClosed;
    hide FirstSpace;
    hide FileArg;
    hide TextArg;
    ArgumentsAre(name, spaces, text);
    WriteEffect(a, name, text);
  }

  /** The number reported: -1 if no handle is free or the file cannot be made, otherwise how much of
      the text was accepted. */
  lemma CountExact(a: Model, name: Name, text: seq<byte>)
    requires Sound(a)
    ensures WriteCommandCount(a, name, text) ==
      if FirstClosed(a.handles, 0) == |a.handles| then -1
      else if name in a.files then Max(0, Min(|text|, Capacity(|a.files[name]|, a.free)))
      else if 1 <= |name| <= 27 && |a.files| < 128 then Max(0, Min(|text|, Capacity(0, a.free)))
      else -1
  {
    hide Splice;
    hide Capacity;
    hide BlocksFor;
    FirstClosedFact(a.handles, 0);
    OpenSound(a, name);
  }

  /** The documentation says that `write` appends to an existing file. The command does so exactly
      when there is nothing to write, or the file is empty, a handle is free and the text fits;
      otherwise the text lands on the file's first bytes, is cut, or is not written at all. */
  lemma AppendsExactly(a: Model, name: Name, text: seq<byte>)
    requires Sound(a) && name in a.files
    ensures var c := a.files[name];
      var files := AWriteCommand(a, name, text).files;
      name in files &&
      (files[name] == c + text <==>
        text == [] || (c == [] && FirstClosed(a.handles, 0) < |a.handles| && |text| <= Capacity(0, a.free)))
  {
    var c := a.files[name];
    if FirstClosed(a.handles, 0) == |a.handles| {
      WriteCommandNoHandle(a, name, text);
    } else {
      WriteCommandExact(a, name, text);
      var n := Max(0, Min(|text|, Capacity(|c|, a.free)));
      var c' := Splice(c, 0, text[..n]);
      if text == [] {
        assert c' == c == c + text;
      } else if c != [] {
        assert |c'| < |c + text|;
      } else {
        assert c' == text[..n] && c + text == text;
      }
    }
  }

  /** A file that does not exist is there afterwards with exactly the text if and only if its name
      is good, there is an entry for it, and the text is empty or there is a handle and room. */
  lemma CreatesExactly(a: Model, name: Name, text: seq<byte>)
    requires Sound(a) && name !in a.files
    ensures var files := AWriteCommand(a, name, text).files;
      name in files && files[name] == text <==>
        && GoodName(name) && |a.files| < DIR_ENTRIES
        && (text == [] || (FirstClosed(a.handles, 0) < |a.handles| && |text| <= Capacity(0, a.free)))
  {
    if FirstClosed(a.handles, 0) == |a.handles| {
      WriteCommandNoHandle(a, name, text);
    } else if GoodName(name) && |a.files| < DIR_ENTRIES {
      WriteCommandExact(a, name, text);
      var n := Max(0, Min(|text|, Capacity(0, a.free)));
      assert Splice([], 0, text[..n]) == text[..n];
      assert n == |text| ==> text[..n] == text;
    }
  }

  /** One input: on a freshly formatted disk `write a x` and then `write a y` leave `y`, not `xy`. */
  lemma SecondWriteOverwrites(fs: Fs)
    requires FsShaped(fs) && fs.disk == Formatted() && forall fd :: 0 <= fd < MAX_OPEN ==> !fs.fds[fd].valid
    ensures var a, x, y := [97], [120], [121];
      && Inv(fs)
      && var first := AWriteCommand(Abs(fs), a, x);
      && first.files == map[a := x]
      && AWriteCommand(first, a, y).files == map[a := y] != map[a := x + y]
  {
    hide AWriteCommand;
    hide Splice;
    FormattedAbs(fs);
    var a, x, y: seq<byte> := [97], [120], [121];
    assert FirstClosed(Empty().handles, 0) == 0;
    WriteCommandExact(Empty(), a, x);
    var first := AWriteCommand(Empty(), a, x);
    assert Splice([], 0, x[..1]) == x;
    WriteCommandSound(Empty(), a, x);
    WriteCommandExact(first, a, y);
    assert Splice(x, 0, y[..1]) == y;
    assert map[a := y][a] != map[a := x + y][a];
  }

  /** The command leaves a sound system. */
  lemma WriteCommandSound(a: Model, name: Name, text: seq<byte>)
    requires Sound(a)
    ensures Sound(AWriteCommand(a, name, text))
  {
  }

  lemma WriteCommandRefused(a: Model, name: Name, text: seq<byte>)
    requires Sound(a) && name !in a.files && !(GoodName(name) && |a.files| < DIR_ENTRIES)
    ensures AWriteCommand(a, name, text) == a
  {
  }

  lemma SpliceNulFree(c: seq<byte>, bs: seq<byte>)
    requires 0 !in c && 0 !in bs
    ensures 0 !in Splice(c, 0, bs)
  {
  }

  predicate NulFree(a: Model) {
    forall x :: x in a.files ==> 0 !in a.files[x]
  }

  /** The text of a command line holds no NUL, so files written by `write` alone stay free of NULs,
      and `cat` shows all of what was written. */
  lemma WriteCommandNulFree(a: Model, arg: Name)
    requires Sound(a) && NulFree(a) && 0 !in arg && FirstSpace(arg) < |arg|
    ensures var a' := AWriteCommand(a, FileArg(arg), TextArg(arg));
      NulFree(a') && forall x :: x in a'.files ==> Shown(a'.files[x]) == a'.files[x]
  {
    hide Shown;
    hide FirstSpace;
    hide SkipSpaces;
    hide AWriteCommand;
    hide Splice;
    hide Sound;
    var name, text := FileArg(arg), TextArg(arg);
    var a' := AWriteCommand(a, name, text);
    assert 0 !in text;
    if FirstClosed(a.handles, 0) == |a.handles| {
      WriteCommandNoHandle(a, name, text);
    } else if name in a.files || (GoodName(name) && |a.files| < DIR_ENTRIES) {
      WriteCommandExact(a, name, text);
      var c := if name in a.files then a.files[name] else [];
      var n := Max(0, Min(|text|, Capacity(|c|, a.free)));
      SpliceNulFree(c, text[..n]);
    } else {
      WriteCommandRefused(a, name, text);
    }
    forall x | x in a'.files
      ensures 0 !in a'.files[x] && Shown(a'.files[x]) == a'.files[x]
    {
      ShownExactly(a'.files[x]);
    }
  }
}
