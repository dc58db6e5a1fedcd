/**
  * What the file system promises, without blocks: a map from names to byte sequences, a table of open
  * (name, offset) handles, and the number of blocks still free.
  */
module FsSpec {
  import opened FsTypes
  import opened Wrappers

  /** A file: its bytes and how many blocks it holds (a zero-length write can leave an empty file with one). */
  datatype AFile = AFile(content: seq<byte>, blocks: nat)

  datatype Handle = Handle(name: CString, offset: nat)

  datatype View = View(files: map<CString, AFile>, fds: seq<Option<Handle>>, free: int)

  predicate ValidFilename(n: CString) { 1 <= |n| < FILENAME_LEN }

  predicate IsOpen(a: View, fd: int) { 0 <= fd < |a.fds| && a.fds[fd].Some? }

  predicate OpenOn(a: View, n: CString) {
    exists fd :: 0 <= fd < |a.fds| && a.fds[fd].Some? && a.fds[fd].value.name == n
  }

  predicate TightSize(blocks: nat, size: nat) {
    if size == 0 then blocks <= 1 else blocks == BlocksFor(size)
  }

  /** Every file fills its blocks exactly, and every open handle points inside an existing file. */
  ghost predicate Valid(a: View) {
    var files, fds := a.files, a.fds;
    && |fds| == FD_MAX
    && |files| <= FILE_MAX
    && a.free >= 0
    && (forall n | n in files :: ValidFilename(n) && TightSize(files[n].blocks, |files[n].content|))
    && (forall fd | 0 <= fd < |fds| && fds[fd].Some? ::
          fds[fd].value.name in files && fds[fd].value.offset <= |files[fds[fd].value.name].content|)
  }

  /** `s` with `t` written over it from position `o` on, extending it when `t` reaches past the end. */
  function Splice(s: seq<byte>, o: nat, t: seq<byte>): (r: seq<byte>)
    requires o <= |s|
    ensures |r| == Max(|s|, o + |t|)
  {
    s[..o] + t + (if o + |t| <= |s| then s[o + |t|..] else [])
  }

  /** Least closed slot, or the table length when all are open. */
  function LeastClosed(fds: seq<Option<Handle>>): (j: nat)
    ensures j <= |fds|
    ensures forall k | 0 <= k < j :: fds[k].Some?
    ensures j < |fds| ==> fds[j].None?
  {
    if fds == [] || fds[0].None? then 0 else 1 + LeastClosed(fds[1..])
  }

  // ---------------------------------------------------------------- operations

  datatype Op =
    | Create(name: CString)
    | Delete(name: CString)
    | Open(name: CString)
    | Close(fd: int)
    | Stat(fd: int)
    | Lseek(fd: int, offset: nat)
    | Write(fd: int, data: seq<byte>)
    | Read(fd: int, count: nat)

  /** A return code, and for reads the bytes delivered. */
  datatype Outcome = Outcome(code: int, data: seq<byte>)

  function DoCreate(a: View, n: CString): (View, int) {
    if !ValidFilename(n) || n in a.files || |a.files| >= FILE_MAX then (a, -1)
    else (a.(files := a.files[n := AFile([], 0)]), 0)
  }

  function DoDelete(a: View, n: CString): (View, int) {
    if !ValidFilename(n) || n !in a.files then (a, -1)
    else (a.(files := a.files - {n}, free := a.free + a.files[n].blocks), 0)
  }

  function DoOpen(a: View, n: CString): (View, int) {
    var j: int := LeastClosed(a.fds);
    if !ValidFilename(n) || n !in a.files || j == |a.fds| then (a, -1)
    else (a.(fds := a.fds[j := Some(Handle(n, 0))]), j)
  }

  function DoClose(a: View, fd: int): (View, int) {
    if !IsOpen(a, fd) then (a, -1) else (a.(fds := a.fds[fd := None]), 0)
  }

  function DoStat(a: View, fd: int): int
    requires Valid(a)
  {
    if !IsOpen(a, fd) then -1 else |a.files[a.fds[fd].value.name].content|
  }

  function DoLseek(a: View, fd: int, offset: nat): (View, int)
    requires Valid(a)
  {
    if !IsOpen(a, fd) || offset > |a.files[a.fds[fd].value.name].content| then (a, -1)
    else (a.(fds := a.fds[fd := Some(a.fds[fd].value.(offset := offset))]), 0)
  }

  /** How many of `count` bytes fit: up to the end of the blocks the file has or can still get. */
  function Writable(a: View, f: AFile, offset: nat, count: nat): (n: nat)
    ensures n <= count
  {
    Max(0, Min(count, (f.blocks + a.free) * BLOCK_SIZE - offset))
  }

  /** Blocks held after a write that leaves `size` bytes: just enough, but at least one when one can be had. */
  function BlocksAfter(a: View, f: AFile, size: nat): nat {
    if size > 0 then BlocksFor(size) else if f.blocks + a.free > 0 then 1 else 0
  }

  /** The view once the file open on `fd` has become `content` and its offset has advanced by `n`. */
  function Written(a: View, fd: int, n: nat, content: seq<byte>): View
    requires IsOpen(a, fd) && a.fds[fd].value.name in a.files
  {
    var h := a.fds[fd].value;
    var f := a.files[h.name];
    var blocks := BlocksAfter(a, f, |content|);
    View(a.files[h.name := AFile(content, blocks)],
         a.fds[fd := Some(Handle(h.name, h.offset + n))],
         a.free + f.blocks - blocks)
  }

  /** The descriptor is open on an existing file, at an offset inside it. */
  predicate Seated(a: View, fd: int) {
    IsOpen(a, fd) && a.fds[fd].value.name in a.files
    && a.fds[fd].value.offset <= |a.files[a.fds[fd].value.name].content|
  }

  function WriteOpen(a: View, fd: int, data: seq<byte>): (View, int)
    requires Seated(a, fd)
  {
    var h := a.fds[fd].value;
    var f := a.files[h.name];
    var n: int := Writable(a, f, h.offset, |data|);
    (Written(a, fd, n, Splice(f.content, h.offset, data[..n])), n)
  }

  function DoWrite(a: View, fd: int, data: seq<byte>): (View, int)
    requires Valid(a)
  {
    if !IsOpen(a, fd) then (a, -1) else WriteOpen(a, fd, data)
  }

  function ReadOpen(a: View, fd: int, count: nat): (View, seq<byte>)
    requires Seated(a, fd)
  {
    var h := a.fds[fd].value;
    var s := a.files[h.name].content;
    var n := Min(count, |s| - h.offset);
    (a.(fds := a.fds[fd := Some(Handle(h.name, h.offset + n))]), s[h.offset..h.offset + n])
  }

  function DoRead(a: View, fd: int, count: nat): (View, Outcome)
    requires Valid(a)
  {
    if !IsOpen(a, fd) then (a, Outcome(-1, []))
    else
      var (b, bytes) := ReadOpen(a, fd, count);
      (b, Outcome(|bytes|, bytes))
  }

  function Step(a: View, op: Op): (View, Outcome)
    requires Valid(a)
  {
    match op
    case Create(n) => var (a', r) := DoCreate(a, n); (a', Outcome(r, []))
    case Delete(n) => var (a', r) := DoDelete(a, n); (a', Outcome(r, []))
    case Open(n) => var (a', r) := DoOpen(a, n); (a', Outcome(r, []))
    case Close(fd) => var (a', r) := DoClose(a, fd); (a', Outcome(r, []))
    case Stat(fd) => (a, Outcome(DoStat(a, fd), []))
    case Lseek(fd, o) => var (a', r) := DoLseek(a, fd, o); (a', Outcome(r, []))
    case Write(fd, d) => var (a', r) := DoWrite(a, fd, d); (a', Outcome(r, []))
    case Read(fd, c) => DoRead(a, fd, c)
  }

  /** The operations of a run never delete a file that is open at that moment. */
  ghost predicate Allowed(a: View, op: Op) { op.Delete? ==> !OpenOn(a, op.name) }

  /** A write never uses more blocks than there are, and never moves the offset past the content. */
  lemma WriteFits(a: View, f: AFile, offset: nat, count: nat)
    requires TightSize(f.blocks, |f.content|) && offset <= |f.content| && a.free >= 0
    ensures offset <= f.blocks * BLOCK_SIZE
    ensures var n := Writable(a, f, offset, count);
      && n == Min(count, (f.blocks + a.free) * BLOCK_SIZE - offset)
      && BlocksAfter(a, f, Max(|f.content|, offset + n)) <= f.blocks + a.free
      && TightSize(BlocksAfter(a, f, Max(|f.content|, offset + n)), Max(|f.content|, offset + n))
  {
  }

  lemma StepKeepsValid(a: View, op: Op)
    requires Valid(a) && Allowed(a, op)
    ensures Valid(Step(a, op).0)
  {
    match op
    case Create(n) => CreateKeepsValid(a, n);
    case Delete(n) => DeleteKeepsValid(a, n);
    case Open(n) => TableKeepsValid(a, DoOpen(a, n).0);
    case Close(fd) => TableKeepsValid(a, DoClose(a, fd).0);
    case Stat(fd) =>
    case Lseek(fd, o) => TableKeepsValid(a, DoLseek(a, fd, o).0);
    case Write(fd, d) => if IsOpen(a, fd) { WriteKeepsValid(a, fd, d); }
    case Read(fd, c) => TableKeepsValid(a, DoRead(a, fd, c).0);
  }

  lemma CreateKeepsValid(a: View, n: CString)
    requires Valid(a)
    ensures Valid(DoCreate(a, n).0)
  {
    var b := DoCreate(a, n).0;
    if b != a {
      assert b.files.Keys == a.files.Keys + {n};
      assert |b.files| == |b.files.Keys|;
    }
  }

  lemma DeleteKeepsValid(a: View, n: CString)
    requires Valid(a) && !OpenOn(a, n)
    ensures Valid(DoDelete(a, n).0)
  {
    var b := DoDelete(a, n).0;
    if b != a {
      assert b.files.Keys == a.files.Keys - {n};
      assert |b.files| == |b.files.Keys|;
    }
  }

  /** Changing only the descriptor table keeps validity while every open handle stays inside its file. */
  lemma TableKeepsValid(a: View, b: View)
    requires Valid(a)
    requires b == a.(fds := b.fds) && |b.fds| == FD_MAX
    requires forall fd | 0 <= fd < |b.fds| && b.fds[fd].Some? ::
               || b.fds[fd] == a.fds[fd]
               || (b.fds[fd].value.name in a.files
                   && b.fds[fd].value.offset <= |a.files[b.fds[fd].value.name].content|)
    ensures Valid(b)
  {
  }

  lemma WriteKeepsValid(a: View, fd: int, d: seq<byte>)
    requires Valid(a) && IsOpen(a, fd)
    ensures Valid(DoWrite(a, fd, d).0)
  {
    var h := a.fds[fd].value;
    var f := a.files[h.name];
    WriteFits(a, f, h.offset, |d|);
    var a' := DoWrite(a, fd, d).0;
    assert a'.files.Keys == a.files.Keys;
    assert |a'.files| == |a'.files.Keys|;
  }

  // ---------------------------------------------------------------- laws of the specification

  lemma SpliceTwice(s: seq<byte>, o: nat, t: seq<byte>, u: seq<byte>)
    requires o <= |s|
    ensures Splice(Splice(s, o, t), o + |t|, u) == Splice(s, o, t + u)
  {
  }

  /**
    * What a write does, byte by byte: it stops short only when the disk is full, replaces exactly the bytes from the
    * offset on, moves this descriptor only, and takes the blocks it adds from the free ones.
    */
  lemma WriteExact(a: View, fd: int, data: seq<byte>)
    requires Valid(a) && IsOpen(a, fd)
    ensures var h := a.fds[fd].value; var f := a.files[h.name];
      var (b, n) := DoWrite(a, fd, data);
      && n == Min(|data|, (f.blocks + a.free) * BLOCK_SIZE - h.offset)
      && b.files.Keys == a.files.Keys
      && var g := b.files[h.name];
      && |g.content| == Max(|f.content|, h.offset + n)
      && (forall j | 0 <= j < |g.content| ::
            g.content[j] == if h.offset <= j < h.offset + n then data[j - h.offset] else f.content[j])
      && g.blocks + b.free == f.blocks + a.free
      && b.free >= 0
      && (forall m | m in a.files && m != h.name :: b.files[m] == a.files[m])
      && |b.fds| == |a.fds|
      && b.fds[fd] == Some(Handle(h.name, h.offset + n))
      && (forall j | 0 <= j < |a.fds| && j != fd :: b.fds[j] == a.fds[j])
  {
    hide BlocksAfter, Splice, Writable, TightSize;
    var h := a.fds[fd].value;
    var f := a.files[h.name];
    WriteFits(a, f, h.offset, |data|);
    SpliceAt(f.content, h.offset, data[..Writable(a, f, h.offset, |data|)]);
  }

  /** After a write the file has just the blocks it needs; but one of no bytes into an empty file takes one as well. */
  lemma WriteBlocks(a: View, fd: int, data: seq<byte>)
    requires Valid(a) && IsOpen(a, fd)
    ensures var n := a.fds[fd].value.name; var b := DoWrite(a, fd, data).0;
      && n in b.files
      && var size := |b.files[n].content|;
      && (size > 0 ==> 4096 * (b.files[n].blocks - 1) < size <= 4096 * b.files[n].blocks)
      && (size == 0 ==> b.files[n].blocks == if a.files[n].blocks + a.free > 0 then 1 else 0)
  {
  }

  lemma SpliceAt(s: seq<byte>, o: nat, t: seq<byte>)
    requires o <= |s|
    ensures forall j | 0 <= j < |Splice(s, o, t)| :: Splice(s, o, t)[j] == if o <= j < o + |t| then t[j - o] else s[j]
  {
  }

  /** What is written can be read back: seek to where the write began and read as many bytes as were written. */
  lemma WriteThenRead(a: View, fd: int, data: seq<byte>)
    requires Valid(a) && IsOpen(a, fd)
    ensures var (b, n) := DoWrite(a, fd, data);
      && Valid(b)
      && 0 <= n <= |data|
      && var (c, r) := DoLseek(b, fd, a.fds[fd].value.offset);
      && r == 0
      && Valid(c)
      && var (d, got) := DoRead(c, fd, n);
      && got == Outcome(n, data[..n])
      && d == b
  {
    hide Splice;
    WriteKeepsValid(a, fd, data);
    var h := a.fds[fd].value;
    var f := a.files[h.name];
    var (b, n) := DoWrite(a, fd, data);
    var s := b.files[h.name].content;
    SpliceReads(f.content, h.offset, data[..n]);
    var c := DoLseek(b, fd, h.offset).0;
    TableKeepsValid(b, c);
    assert c.fds[fd := Some(Handle(h.name, h.offset + n))] == b.fds;
  }

  lemma SpliceReads(s: seq<byte>, o: nat, t: seq<byte>)
    requires o <= |s|
    ensures Splice(s, o, t)[o..o + |t|] == t
  {
  }

  /**
    * What a seek and a read behind it do: past the end the seek is refused; else the read delivers what is there, up
    * to the end of the file, moves this descriptor only and changes no file, nor what a stat says of it.
    */
  lemma ReadExact(a: View, fd: int, o: nat, count: nat)
    requires Valid(a) && IsOpen(a, fd)
    ensures var h := a.fds[fd].value; var s := a.files[h.name].content;
      var (b, r) := DoLseek(a, fd, o);
      && Valid(b)
      && if o > |s| then r == -1 && b == a else
      && r == 0
      && var m := if count <= |s| - o then count else |s| - o;
      && var (c, got) := DoRead(b, fd, count);
      && got == Outcome(m, s[o..o + m])
      && c.files == a.files && c.free == a.free && |c.fds| == |a.fds|
      && c.fds[fd] == Some(Handle(h.name, o + m))
      && (forall j | 0 <= j < |a.fds| && j != fd :: c.fds[j] == a.fds[j])
      && Valid(c) && DoStat(c, fd) == |s|
  {
    hide TightSize;
    var b := DoLseek(a, fd, o).0;
    TableKeepsValid(a, b);
    TableKeepsValid(b, DoRead(b, fd, count).0);
  }

  /** Two reads in a row deliver what one read of the joint count delivers, also at the end of the file. */
  lemma ReadTwice(a: View, fd: int, k: nat, n: nat)
    requires Valid(a) && IsOpen(a, fd)
    ensures var (b, x) := DoRead(a, fd, k);
      && Valid(b)
      && var (c, y) := DoRead(b, fd, n);
      && DoRead(a, fd, k + n) == (c, Outcome(x.code + y.code, x.data + y.data))
  {
    TableKeepsValid(a, DoRead(a, fd, k).0);
    ReadOpenTwice(a, fd, k, n);
  }

  lemma ReadOpenTwice(a: View, fd: int, k: nat, n: nat)
    requires Seated(a, fd)
    ensures var (b, x) := ReadOpen(a, fd, k);
      && Seated(b, fd)
      && var (c, y) := ReadOpen(b, fd, n);
      && ReadOpen(a, fd, k + n) == (c, x + y)
  {
    var h := a.fds[fd].value;
    var s := a.files[h.name].content;
    var (b, x) := ReadOpen(a, fd, k);
    var (c, y) := ReadOpen(b, fd, n);
    JoinSlices(s, h.offset, h.offset + |x|, h.offset + |x| + |y|);
    assert c.fds == ReadOpen(a, fd, k + n).0.fds;
  }

  lemma JoinSlices(s: seq<byte>, k: nat, m: nat, n: nat)
    requires k <= m <= n <= |s|
    ensures s[k..m] + s[m..n] == s[k..n]
  {
  }

  /** Two writes in a row, however short the disk cuts them, are one write of the joined data. */
  lemma WriteTwice(a: View, fd: int, t: seq<byte>, u: seq<byte>)
    requires Valid(a) && IsOpen(a, fd)
    ensures var (b, m) := DoWrite(a, fd, t);
      && Valid(b)
      && var (c, n) := DoWrite(b, fd, u);
      && DoWrite(a, fd, t + u) == (c, m + n)
  {
    hide Splice;
    WriteKeepsValid(a, fd, t);
    WriteFits(a, a.files[a.fds[fd].value.name], a.fds[fd].value.offset, |t|);
    WriteOpenTwice(a, fd, t, u);
  }

  lemma WriteOpenTwice(a: View, fd: int, t: seq<byte>, u: seq<byte>)
    requires Seated(a, fd) && a.fds[fd].value.offset <= (a.files[a.fds[fd].value.name].blocks + a.free) * BLOCK_SIZE
    ensures var (b, m) := WriteOpen(a, fd, t);
      && Seated(b, fd)
      && var (c, n) := WriteOpen(b, fd, u);
      && WriteOpen(a, fd, t + u) == (c, m + n)
  {
    hide Splice, Writable, BlocksAfter;
    var h := a.fds[fd].value;
    var f := a.files[h.name];
    var m := Writable(a, f, h.offset, |t|);
    var s := Splice(f.content, h.offset, t[..m]);
    var b := Written(a, fd, m, s);
    assert WriteOpen(a, fd, t) == (b, m);
    var g := b.files[h.name];
    var n := Writable(b, g, h.offset + m, |u|);
    WritableTwice(a, f, b, g, h.offset, |t|, |u|);
    PrefixOfJoin(t, u, m, n);
    var j := Splice(s, h.offset + m, u[..n]);
    SpliceTwice(f.content, h.offset, t[..m], u[..n]);
    WrittenTwice(a, fd, m, n, s, j);
    assert WriteOpen(b, fd, u) == (Written(b, fd, n, j), n);
    assert WriteOpen(a, fd, t + u) == (Written(a, fd, m + n, j), m + n);
  }

  lemma PrefixOfJoin(t: seq<byte>, u: seq<byte>, m: nat, n: nat)
    requires m <= |t| && n <= |u| && (m < |t| ==> n == 0)
    ensures (t + u)[..m + n] == t[..m] + u[..n]
  {
  }

  lemma WrittenTwice(a: View, fd: int, m: nat, n: nat, c: seq<byte>, d: seq<byte>)
    requires IsOpen(a, fd) && a.fds[fd].value.name in a.files
    ensures Written(Written(a, fd, m, c), fd, n, d) == Written(a, fd, m + n, d)
  {
  }

  lemma WritableTwice(a: View, f: AFile, b: View, g: AFile, o: nat, t: nat, u: nat)
    requires o <= (f.blocks + a.free) * BLOCK_SIZE
    requires g.blocks + b.free == f.blocks + a.free
    ensures Writable(a, f, o, t + u) == Writable(a, f, o, t) + Writable(b, g, o + Writable(a, f, o, t), u)
    ensures Writable(a, f, o, t) < t ==> Writable(b, g, o + Writable(a, f, o, t), u) == 0
  {
  }

  // ---------------------------------------------------------------- laws of create, delete, open and close

  /** A create is refused for bad and existing names and for a full directory; a delete of its file undoes it. */
  lemma CreateExact(a: View, n: CString)
    requires Valid(a)
    ensures var (b, r) := DoCreate(a, n);
      && Valid(b)
      && if |n| == 0 || |n| >= 16 || n in a.files || |a.files| == 128 then r == -1 && b == a else
      && r == 0
      && b.files.Keys == a.files.Keys + {n}
      && b.files[n] == AFile([], 0)
      && (forall m | m in a.files :: b.files[m] == a.files[m])
      && b.fds == a.fds && b.free == a.free
      && DoDelete(b, n) == (a, 0)
  {
    hide TightSize;
    CreateKeepsValid(a, n);
    assert DoCreate(a, n).1 == 0 ==> DoDelete(DoCreate(a, n).0, n).0.files == a.files;
  }

  /** A delete gives back the blocks of one file and leaves all else; its name can be created anew, not opened. */
  lemma DeleteExact(a: View, n: CString)
    requires Valid(a)
    ensures var (b, r) := DoDelete(a, n);
      if n !in a.files then r == -1 && b == a else
      && r == 0
      && b.files.Keys == a.files.Keys - {n}
      && (forall m | m in b.files :: b.files[m] == a.files[m])
      && b.fds == a.fds && b.free == a.free + a.files[n].blocks
      && DoOpen(b, n) == (b, -1) && DoCreate(b, n).1 == 0
  {
    if n in a.files {
      var b := DoDelete(a, n).0;
      assert b.files.Keys == a.files.Keys - {n};
      assert |b.files| == |b.files.Keys|;
    }
  }

  /**
    * An open is refused for a bad or unknown name and for a full table. Else it takes the first closed slot, from
    * which exactly that file can be read from its first byte to its last; a close of it undoes the open.
    */
  lemma OpenExact(a: View, n: CString)
    requires Valid(a)
    ensures var (b, fd) := DoOpen(a, n);
      && Valid(b)
      && if |n| == 0 || |n| >= 16 || n !in a.files || (forall j | 0 <= j < |a.fds| :: a.fds[j].Some?)
         then fd == -1 && b == a else
      && 0 <= fd < |a.fds| == |b.fds|
      && a.fds[fd].None? && (forall j | 0 <= j < fd :: a.fds[j].Some?)
      && b.files == a.files && b.free == a.free
      && (forall j | 0 <= j < |a.fds| && j != fd :: b.fds[j] == a.fds[j])
      && var s := a.files[n].content;
      && DoStat(b, fd) == |s|
      && DoRead(b, fd, |s|).1 == Outcome(|s|, s)
      && DoClose(b, fd) == (a, 0)
  {
    hide TightSize;
    var (b, fd) := DoOpen(a, n);
    TableKeepsValid(a, b);
    if fd != -1 {
      assert b.fds[fd := None] == a.fds;
    }
  }

  /** A write through a descriptor just opened replaces that file from its first byte on. */
  lemma OpenThenWrite(a: View, n: CString, data: seq<byte>)
    requires Valid(a) && DoOpen(a, n).1 != -1
    ensures var (b, fd) := DoOpen(a, n);
      && n in a.files && Valid(b)
      && var (c, m) := DoWrite(b, fd, data);
      && n in c.files && 0 <= m <= |data|
      && var s := a.files[n].content;
      && c.files[n].content == data[..m] + (if m <= |s| then s[m..] else [])
      && (forall k | k in a.files && k != n :: k in c.files && c.files[k] == a.files[k])
  {
    hide Writable, BlocksAfter, TightSize;
    TableKeepsValid(a, DoOpen(a, n).0);
  }

  /** Whatever is not an open descriptor is refused by all five operations, which then change nothing. */
  lemma ClosedRefused(a: View, fd: int, o: nat, count: nat, data: seq<byte>)
    requires Valid(a)
    ensures (fd < 0 || fd >= 32 || a.fds[fd].None?) <==> DoClose(a, fd) == (a, -1)
    ensures (fd < 0 || fd >= 32 || a.fds[fd].None?) <==> DoStat(a, fd) == -1
    ensures (fd < 0 || fd >= 32 || a.fds[fd].None?) <==> DoRead(a, fd, count) == (a, Outcome(-1, []))
    ensures (fd < 0 || fd >= 32 || a.fds[fd].None?) <==> DoWrite(a, fd, data) == (a, -1)
    ensures (fd < 0 || fd >= 32 || a.fds[fd].None?) ==> DoLseek(a, fd, o) == (a, -1)
  {
    hide Splice, BlocksAfter, TightSize;
    if IsOpen(a, fd) { WriteExact(a, fd, data); }
  }

  /** After a close the descriptor is refused, and its slot is there for the next open. */
  lemma CloseExact(a: View, fd: int, n: CString, o: nat, count: nat, data: seq<byte>)
    requires Valid(a) && IsOpen(a, fd)
    ensures var (b, r) := DoClose(a, fd);
      && r == 0
      && Valid(b)
      && b.files == a.files && b.free == a.free && |b.fds| == |a.fds|
      && (forall j | 0 <= j < |a.fds| && j != fd :: b.fds[j] == a.fds[j])
      && DoRead(b, fd, count) == (b, Outcome(-1, []))
      && DoWrite(b, fd, data) == (b, -1)
      && DoLseek(b, fd, o) == (b, -1)
      && DoStat(b, fd) == -1
      && DoClose(b, fd) == (b, -1)
      && (n in a.files ==> 0 <= DoOpen(b, n).1 <= fd)
  {
    TableKeepsValid(a, DoClose(a, fd).0);
  }

  /** A step changes no file that it does not create, delete, or write through an open descriptor. */
  predicate Touches(a: View, op: Op, n: CString) {
    || (op.Create? && op.name == n)
    || (op.Delete? && op.name == n)
    || (op.Write? && IsOpen(a, op.fd) && a.fds[op.fd].value.name == n)
  }

  /** States passed through by a run, and its outcomes. */
  function Run(a: View, ops: seq<Op>): (r: (View, seq<Outcome>))
    requires Valid(a) && AllAllowed(a, ops)
    ensures |r.1| == |ops|
    decreases |ops|
  {
    if ops == [] then (a, [])
    else
      var (b, o) := Step(a, ops[0]);
      StepKeepsValid(a, ops[0]);
      var (c, os) := Run(b, ops[1..]);
      (c, [o] + os)
  }

  ghost predicate AllAllowed(a: View, ops: seq<Op>)
    requires Valid(a)
    decreases |ops|
  {
    ops != [] ==> Allowed(a, ops[0]) && (StepKeepsValid(a, ops[0]); AllAllowed(Step(a, ops[0]).0, ops[1..]))
  }

  ghost predicate NeverTouches(a: View, ops: seq<Op>, n: CString)
    requires Valid(a) && AllAllowed(a, ops)
    decreases |ops|
  {
    ops != [] ==> !Touches(a, ops[0], n) && (StepKeepsValid(a, ops[0]); NeverTouches(Step(a, ops[0]).0, ops[1..], n))
  }

  lemma StepIsolation(a: View, op: Op, n: CString)
    requires Valid(a) && !Touches(a, op, n)
    ensures n in Step(a, op).0.files <==> n in a.files
    ensures n in a.files ==> Step(a, op).0.files[n] == a.files[n]
  {
  }

  /** Isolation: over any run, a file that is never touched keeps its bytes and its blocks. */
  lemma {:induction false} Isolation(a: View, ops: seq<Op>, n: CString)
    requires Valid(a) && AllAllowed(a, ops) && NeverTouches(a, ops, n)
    ensures Valid(Run(a, ops).0)
    ensures n in Run(a, ops).0.files <==> n in a.files
    ensures n in a.files ==> Run(a, ops).0.files[n] == a.files[n]
    decreases |ops|
  {
    if ops != [] {
      StepKeepsValid(a, ops[0]);
      StepIsolation(a, ops[0], n);
      Isolation(Step(a, ops[0]).0, ops[1..], n);
    }
  }

  // ---------------------------------------------------------------- a write in progress

  /** The view when `t` has been written through `fd` so far and the file holds `blocks` blocks. */
  function Progress(a: View, fd: int, t: seq<byte>, blocks: nat): View
    requires Seated(a, fd)
  {
    var h := a.fds[fd].value;
    var f := a.files[h.name];
    View(a.files[h.name := AFile(Splice(f.content, h.offset, t), blocks)],
         a.fds[fd := Some(Handle(h.name, h.offset + |t|))],
         a.free + f.blocks - blocks)
  }

  lemma ProgressStart(a: View, fd: int)
    requires Seated(a, fd)
    ensures Progress(a, fd, [], a.files[a.fds[fd].value.name].blocks) == a
  {
    var h := a.fds[fd].value;
    var f := a.files[h.name];
    assert Splice(f.content, h.offset, []) == f.content;
    assert a.files[h.name := f] == a.files;
    assert a.fds[fd := Some(h)] == a.fds;
  }

  /** The view after file `n` has been given one of the free blocks. */
  function OneMore(a: View, n: CString): View
    requires n in a.files
  {
    View(a.files[n := a.files[n].(blocks := a.files[n].blocks + 1)], a.fds, a.free - 1)
  }

  /** One more block for the file. */
  lemma ProgressGrow(a: View, fd: int, t: seq<byte>, blocks: nat)
    requires Seated(a, fd)
    ensures OneMore(Progress(a, fd, t, blocks), a.fds[fd].value.name) == Progress(a, fd, t, blocks + 1)
  {
  }

  /** More bytes after the ones written so far. */
  lemma ProgressStore(a: View, fd: int, t: seq<byte>, u: seq<byte>, blocks: nat)
    requires Seated(a, fd)
    ensures var p := Progress(a, fd, t, blocks);
      && Seated(p, fd)
      && Progress(p, fd, u, blocks) == Progress(a, fd, t + u, blocks)
  {
    hide Splice;
    var h := a.fds[fd].value;
    SpliceTwice(a.files[h.name].content, h.offset, t, u);
  }

  /** A write stops when everything is written or when the last block is full and none is free. */
  lemma ProgressDone(a: View, fd: int, data: seq<byte>, n: nat, blocks: nat)
    requires Valid(a) && IsOpen(a, fd) && n <= |data|
    requires var p := Progress(a, fd, data[..n], blocks);
      && Valid(p)
      && (blocks == 0 ==> p.free == 0)
      && (n < |data| ==> p.free == 0 && a.fds[fd].value.offset + n == blocks * BLOCK_SIZE)
    ensures DoWrite(a, fd, data) == (Progress(a, fd, data[..n], blocks), n)
  {
    hide Splice;
    var h := a.fds[fd].value;
    var f := a.files[h.name];
    var p := Progress(a, fd, data[..n], blocks);
    var g := p.files[h.name];
    assert TightSize(g.blocks, |g.content|) && p.free >= 0;
    WriteFits(a, f, h.offset, |data|);
    ProgressCount(a, f, g, p.free, h.offset, n, |data|);
  }

  lemma ProgressCount(a: View, f: AFile, g: AFile, free: int, o: nat, n: nat, count: nat)
    requires TightSize(f.blocks, |f.content|) && TightSize(g.blocks, |g.content|) && a.free >= 0 && free >= 0
    requires g.blocks + free == f.blocks + a.free && |g.content| == Max(|f.content|, o + n)
    requires n <= count && o <= |f.content|
    requires g.blocks == 0 ==> free == 0
    requires n < count ==> free == 0 && o + n == g.blocks * BLOCK_SIZE
    ensures Writable(a, f, o, count) == n
    ensures BlocksAfter(a, f, |g.content|) == g.blocks
  {
  }

  // ---------------------------------------------------------------- the header's promise about open files

  /** The return code that the interface comment of fs_delete promises. */
  function PromisedDeleteCode(a: View, n: CString): int {
    if !ValidFilename(n) || n !in a.files || OpenOn(a, n) then -1 else 0
  }

  /** The code keeps that promise exactly for the names that are not those of open files. */
  lemma DeleteMeetsHeader(a: View, n: CString)
    requires Valid(a)
    ensures DoDelete(a, n).1 == PromisedDeleteCode(a, n) <==> !OpenOn(a, n)
  {
    if OpenOn(a, n) {
      assert n in a.files && ValidFilename(n);
    }
  }

  /** Where it does not: whenever there is room for one more file and descriptor, create, open and delete it. */
  lemma DeleteOpenFileExample(a: View, n: CString)
    requires Valid(a) && ValidFilename(n) && n !in a.files && |a.files| < FILE_MAX && LeastClosed(a.fds) < |a.fds|
    ensures var ops := [Create(n), Open(n)];
      && AllAllowed(a, ops)
      && var (b, os) := Run(a, ops);
      && os == [Outcome(0, []), Outcome(LeastClosed(a.fds), [])]
      && DoDelete(b, n).1 == 0 && PromisedDeleteCode(b, n) == -1
  {
    hide Valid;
    var op, next := Create(n), Open(n);
    StepKeepsValid(a, op);
    var b := Step(a, op).0;
    StepKeepsValid(b, next);
    var c := Step(b, next).0;
    RunFirst(b, next, []);
    RunFirst(a, op, [next]);
    assert [op] + [next] == [op, next] && [next] + [] == [next];
    assert c.fds[LeastClosed(a.fds)] == Some(Handle(n, 0));
    assert OpenOn(c, n);
  }

  lemma RunFirst(a: View, op: Op, ops: seq<Op>)
    requires Valid(a) && Allowed(a, op) && Valid(Step(a, op).0) && AllAllowed(Step(a, op).0, ops)
    ensures AllAllowed(a, [op] + ops)
    ensures var (b, o) := Step(a, op); Run(a, [op] + ops) == (Run(b, ops).0, [o] + Run(b, ops).1)
  {
    assert ([op] + ops)[0] == op && ([op] + ops)[1..] == ops;
  }
}
