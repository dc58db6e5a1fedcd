/** Whole runs of file system operations, and a session that ends with an unmount and a new mount. */
module FsRuns {
  import opened FsTypes
  import opened Wrappers
  import opened FsSpec
  import opened Volume
  import opened VolumeImage
  import opened FileSystem

  /** One operation on the mounted file system has exactly the specified effect and outcome. */
  method Apply(fs: FileSystem, op: Op) returns (o: Outcome)
    requires fs.Good() && Allowed(fs.Meaning(), op)
    modifies fs`layout, fs`count, fs.disk, fs.root, fs.fat, fs.fds
    ensures Valid(old(fs.Meaning())) && fs.Good()
    ensures Step(old(fs.Meaning()), op) == (fs.Meaning(), o)
  {
    hide Valid, DoCreate, DoDelete, DoOpen, DoClose, DoStat, DoLseek, DoWrite, DoRead, Abs, Inv, Core;
    AbsValid(fs.Snap(), fs.layout);
    var r: int;
    match op {
      case Create(n) => r := fs.Create(n);
      case Delete(n) => r := ApplyDelete(fs, n);
      case Open(n) => r := fs.Open(n);
      case Close(fd) => r := fs.Close(fd);
      case Stat(fd) => r := fs.Stat(fd);
      case Lseek(fd, offset) => r := fs.Lseek(fd, offset);
      case Write(fd, data) => r := ApplyWrite(fs, fd, data);
      case Read(fd, count) =>
        o := ApplyRead(fs, fd, count);
        return;
    }
    o := Outcome(r, []);
  }

  method ApplyDelete(fs: FileSystem, n: CString) returns (r: int)
    requires fs.Good() && !OpenOn(fs.Meaning(), n)
    modifies fs`layout, fs.root, fs.fat
    ensures fs.Good() && (fs.Meaning(), r) == DoDelete(old(fs.Meaning()), n)
  {
    r := fs.Delete(n);
  }

  method ApplyWrite(fs: FileSystem, fd: int, data: seq<byte>) returns (r: int)
    requires fs.Good()
    modifies fs`layout, fs.disk, fs.root, fs.fat, fs.fds
    ensures Valid(old(fs.Meaning())) && fs.Good()
    ensures (fs.Meaning(), r) == DoWrite(old(fs.Meaning()), fd, data)
  {
    hide DoWrite;
    assert data[..|data|] == data;
    r := fs.Write(fd, data, |data|);
  }

  method ApplyRead(fs: FileSystem, fd: int, count: nat) returns (o: Outcome)
    requires fs.Good()
    modifies fs.fds
    ensures Valid(old(fs.Meaning())) && fs.Good()
    ensures DoRead(old(fs.Meaning()), fd, count) == (fs.Meaning(), o)
  {
    var buf := new byte[count];
    var r := fs.Read(fd, buf, count);
    o := Outcome(r, buf[..Max(0, r)]);
  }

  /** Every run of the file system is the run of its specification: same view at the end, same outcomes on the way. */
  method Execute(fs: FileSystem, ops: seq<Op>) returns (os: seq<Outcome>)
    requires fs.Good() && Valid(fs.Meaning()) && AllAllowed(fs.Meaning(), ops)
    modifies fs`layout, fs`count, fs.disk, fs.root, fs.fat, fs.fds
    ensures fs.Good()
    ensures Run(old(fs.Meaning()), ops) == (fs.Meaning(), os)
    decreases |ops|
  {
    if ops == [] { return []; }
    var o := Apply(fs, ops[0]);
    AbsValid(fs.Snap(), fs.layout);
    var rest := Execute(fs, ops[1..]);
    os := [o] + rest;
  }

  /** On every good volume with room: a file that is deleted while it is open takes the volume's consistency with it. */
  method DeleteOpenFile(fs: FileSystem, n: CString) returns (made: int, fd: int, gone: int)
    requires fs.Good() && Valid(fs.Meaning())
    requires ValidFilename(n) && n !in fs.Meaning().files && |fs.Meaning().files| < FILE_MAX
    requires LeastClosed(fs.Meaning().fds) < |fs.Meaning().fds|
    modifies fs`layout, fs`count, fs.disk, fs.root, fs.fat, fs.fds
    ensures made == 0 && fd == LeastClosed(old(fs.Meaning()).fds) && gone == 0
    ensures !fs.Good()
  {
    hide Core, Abs;
    ghost var a := fs.Meaning();
    DeleteOpenFileExample(a, n);
    made := fs.Create(n);
    ghost var b := fs.Meaning();
    fd := fs.Open(n);
    assert fs.Meaning().fds[fd] == Some(Handle(n, 0));
    gone := fs.Delete(n);
  }

  /**
    * Unmounting with no descriptor open and mounting again: both succeed, and super block, FAT and root directory are
    * what they were. Whatever the memory of the new descriptor table holds, with a cleared table every file has its
    * name, bytes and blocks back and the same blocks are free; and so it is at once if that memory is consistent.
    */
  method Remount(fs: FileSystem) returns (down: int, up: int)
    requires fs.Good()
    requires forall fd | 0 <= fd < FD_MAX :: fs.Meaning().fds[fd].None?
    modifies fs, fs.disk
    ensures down == 0 && up == 0
    ensures fs.fat.Length1 == FAT_SIZE && |fs.Snap().root| == FILE_MAX
    ensures var v, w := old(fs.Snap()), fs.Snap(); (w.sb, w.fat, w.root) == (v.sb, v.fat, v.root)
    ensures var cleared := fs.Snap().(fds := ClosedTable(), openCount := 0);
      && Inv(cleared, fs.layout)
      && Abs(cleared, fs.layout).files == old(fs.Meaning()).files
      && Abs(cleared, fs.layout).free == old(fs.Meaning()).free
    ensures fs.Good() <==> FdsOk(fs.Snap())
    ensures fs.Good() ==>
      fs.Meaning().files == old(fs.Meaning()).files && fs.Meaning().free == old(fs.Meaning()).free
  {
    hide Inv, Core, Abs, Saved, Load, Accepts;
    ghost var v, l := fs.Snap(), fs.layout;
    down := fs.Umount();
    Remounted(v, l, ClosedTable(), 0);
    MountableBytes(fs.disk[..]);
    up := fs.Mount();
    Remounted(v, l, fs.fds[..], fs.count);
  }
}
