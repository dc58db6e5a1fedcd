/**
  * A snapshot of a mounted volume, its invariant, and its meaning as a view of named byte sequences.
  * The lemmas say how the view changes when the snapshot changes the way each operation changes it.
  */
module Volume {
  import opened FsTypes
  import opened Wrappers
  import opened Fat
  import opened FsSpec
  import opened Directory

  datatype Vol = Vol(
    sb: SuperBlock,
    fat: seq<nat>,
    root: seq<RootEntry>,
    fds: seq<FileDes>,
    openCount: int,
    disk: seq<Block>)

  const SIGNATURE: seq<byte> := [69, 67, 83, 49, 53, 48, 70, 83]  // ECS150FS

  predicate Named(e: RootEntry) { e.filename[0] != 0 }

  function NameOf(e: RootEntry): CString { CStr(e.filename) }

  /** First disk block that holds file data. */
  function Base(v: Vol): nat { v.sb.rootIndex + 1 }

  /** Least root slot holding name `n`, or the number of slots when there is none. */
  function FindRoot(root: seq<RootEntry>, n: CString): (r: nat)
    ensures r <= |root|
    ensures r < |root| ==> NameOf(root[r]) == n
    ensures forall j | 0 <= j < r :: NameOf(root[j]) != n
  {
    if root == [] || NameOf(root[0]) == n then 0 else 1 + FindRoot(root[1..], n)
  }

  /** Number of open entries of a descriptor table. */
  function CountOpen(fds: seq<FileDes>): nat {
    if fds == [] then 0 else CountOpen(fds[..|fds| - 1]) + (if fds[|fds| - 1].open != 0 then 1 else 0)
  }

  // ---------------------------------------------------------------- the invariant

  /** The super block describes the disk, and every field fits its on-disk width. */
  ghost predicate Shape(v: Vol) {
    var sb := v.sb;
    && sb.signature == SIGNATURE
    && sb.rootIndex == sb.fatCount + 1
    && sb.startIndex == sb.fatCount + 2
    && sb.total == 2 + sb.fatCount + sb.dataCount == |v.disk|
    && |v.fat| == sb.fatCount * FAT_SIZE
    && |v.root| == FILE_MAX
    && |v.fds| == FD_MAX
    && (forall b | 0 <= b < |v.fat| :: v.fat[b] < 0x1_0000)
    && (forall i | 0 <= i < |v.root| :: |NameOf(v.root[i])| < FILENAME_LEN)
  }

  ghost predicate NamesUnique(root: seq<RootEntry>) {
    forall i, j | 0 <= i < j < |root| && Named(root[i]) && Named(root[j]) :: NameOf(root[i]) != NameOf(root[j])
  }

  /** Slot `i` is named and the table links its chain, long enough for its size; or it is unnamed and owns nothing. */
  ghost predicate SlotOk(v: Vol, l: Layout, i: nat)
    requires i < |v.root| && i < |l.chains|
  {
    if Named(v.root[i]) then
      Linked(v.fat, v.root[i].first, l.chains[i]) && v.root[i].size <= |l.chains[i]| * BLOCK_SIZE
    else
      l.chains[i] == []
  }

  ghost predicate FdOk(v: Vol, d: FileDes)
    requires |v.root| == FILE_MAX
  {
    d.open != 0 ==>
      d.fileIndex < FILE_MAX && Named(v.root[d.fileIndex]) && d.offset <= v.root[d.fileIndex].size
  }

  ghost predicate FdsOk(v: Vol)
    requires |v.root| == FILE_MAX
  {
    && v.openCount == CountOpen(v.fds)
    && forall fd | 0 <= fd < |v.fds| :: FdOk(v, v.fds[fd])
  }

  /** Everything but exact block counts: this also holds in the middle of a write. */
  ghost predicate Core(v: Vol, l: Layout) {
    var good :=
      && Shape(v)
      && Owned(v.fat, v.sb.dataCount, l)
      && |l.chains| == FILE_MAX
      && (forall i | 0 <= i < FILE_MAX :: SlotOk(v, l, i))
      && NamesUnique(v.root)
      && FdsOk(v);
    good
  }

  ghost predicate Inv(v: Vol, l: Layout) {
    var good :=
      && Core(v, l)
      && forall i | 0 <= i < FILE_MAX && Named(v.root[i]) :: TightSize(|l.chains[i]|, v.root[i].size);
    good
  }

  // ---------------------------------------------------------------- the view

  ghost predicate ChainOnDisk(disk: seq<Block>, base: nat, c: seq<nat>) {
    forall k | 0 <= k < |c| :: base + c[k] < |disk|
  }

  /** The bytes found by following a chain: byte `k` is byte `k % 4096` of block `k / 4096` of the chain. */
  ghost function ContentOf(disk: seq<Block>, base: nat, c: seq<nat>, size: nat): (s: seq<byte>)
    requires ChainOnDisk(disk, base, c) && size <= |c| * BLOCK_SIZE
    ensures |s| == size
  {
    seq(size, k requires 0 <= k < size => disk[base + c[k / BLOCK_SIZE]][k % BLOCK_SIZE])
  }

  ghost function FileOf(v: Vol, l: Layout, i: nat): (f: AFile)
    requires Core(v, l) && i < FILE_MAX && Named(v.root[i])
    ensures f.blocks == |l.chains[i]| && |f.content| == v.root[i].size
  {
    ChainFits(v, l, i);
    assert SlotOk(v, l, i);
    AFile(ContentOf(v.disk, Base(v), l.chains[i], v.root[i].size), |l.chains[i]|)
  }

  ghost function HandleOf(root: seq<RootEntry>, d: FileDes): Option<Handle> {
    if d.open == 0 || d.fileIndex >= |root| then None else Some(Handle(NameOf(root[d.fileIndex]), d.offset))
  }

  ghost function FdView(root: seq<RootEntry>, fds: seq<FileDes>): (s: seq<Option<Handle>>)
    ensures |s| == |fds|
  {
    seq(|fds|, j requires 0 <= j < |fds| => HandleOf(root, fds[j]))
  }

  /** The root directory with every named slot's file spelled out. */
  ghost function DirOf(v: Vol, l: Layout): (d: Dir)
    requires Core(v, l)
    ensures |d| == FILE_MAX && Unique(d)
  {
    seq(FILE_MAX, i requires 0 <= i < FILE_MAX =>
      if Named(v.root[i]) then Some(Entry(NameOf(v.root[i]), FileOf(v, l, i))) else None)
  }

  ghost function Abs(v: Vol, l: Layout): View
    requires Core(v, l)
  {
    View(ToMap(DirOf(v, l)), FdView(v.root, v.fds), CountZero(v.fat, v.sb.dataCount))
  }

  // ---------------------------------------------------------------- bookkeeping lemmas

  lemma ChainFits(v: Vol, l: Layout, i: nat)
    requires Shape(v) && Owned(v.fat, v.sb.dataCount, l) && |l.chains| == FILE_MAX && i < FILE_MAX
    ensures ChainOnDisk(v.disk, Base(v), l.chains[i])
    ensures forall k | 0 <= k < |l.chains[i]| :: 1 <= l.chains[i][k] < v.sb.dataCount
  {
    forall k | 0 <= k < |l.chains[i]| ensures 1 <= l.chains[i][k] < v.sb.dataCount {
      assert InLayout(l, i, k);
    }
  }

  lemma FileAt(v: Vol, l: Layout, i: nat)
    requires Core(v, l) && i < FILE_MAX && Named(v.root[i])
    ensures NameOf(v.root[i]) in Abs(v, l).files && Abs(v, l).files[NameOf(v.root[i])] == FileOf(v, l, i)
  {
    ToMapAt(DirOf(v, l), i);
  }

  /** Searching the root finds exactly the names of the view. */
  lemma FindNamed(v: Vol, l: Layout, n: CString)
    requires Core(v, l) && n != []
    ensures n in Abs(v, l).files <==> FindRoot(v.root, n) < FILE_MAX
    ensures FindRoot(v.root, n) < FILE_MAX ==> Named(v.root[FindRoot(v.root, n)])
  {
    var d := DirOf(v, l);
    ToMapHas(d, n);
    var r := FindRoot(v.root, n);
    if n in ToMap(d) {
      var i :| 0 <= i < |d| && d[i].Some? && d[i].value.name == n;
      assert NameOf(v.root[i]) == n;
    }
    if r < FILE_MAX {
      assert d[r].Some? && d[r].value.name == n;
    }
  }

  lemma {:induction false} CountOpenUpdate(fds: seq<FileDes>, i: nat, d: FileDes)
    requires i < |fds|
    ensures CountOpen(fds[i := d])
         == CountOpen(fds) - (if fds[i].open != 0 then 1 else 0) + (if d.open != 0 then 1 else 0)
  {
    var k := |fds| - 1;
    if i < k {
      assert fds[i := d][..k] == fds[..k][i := d];
      CountOpenUpdate(fds[..k], i, d);
    } else {
      assert fds[i := d][..k] == fds[..k];
    }
  }

  lemma {:induction false} CountOpenFull(fds: seq<FileDes>)
    ensures CountOpen(fds) <= |fds|
    ensures CountOpen(fds) == |fds| <==> forall i | 0 <= i < |fds| :: fds[i].open != 0
    ensures CountOpen(fds) == 0 <==> forall i | 0 <= i < |fds| :: fds[i].open == 0
  {
    if fds != [] {
      var k := |fds| - 1;
      CountOpenFull(fds[..k]);
      assert forall i | 0 <= i < k :: fds[..k][i] == fds[i];
    }
  }

  /** The view of a good volume is a valid view. */
  lemma AbsValid(v: Vol, l: Layout)
    requires Inv(v, l)
    ensures Valid(Abs(v, l))
  {
    var a := Abs(v, l);
    var d := DirOf(v, l);
    CountNames(d);
    forall n | n in a.files
      ensures ValidFilename(n) && TightSize(a.files[n].blocks, |a.files[n].content|)
    {
      ToMapHas(d, n);
      var i :| 0 <= i < |d| && d[i].Some? && d[i].value.name == n;
      ToMapAt(d, i);
    }
    forall fd | 0 <= fd < |a.fds| && a.fds[fd].Some?
      ensures a.fds[fd].value.name in a.files
      ensures a.fds[fd].value.offset <= |a.files[a.fds[fd].value.name].content|
    {
      assert FdOk(v, v.fds[fd]);
      FileAt(v, l, v.fds[fd].fileIndex);
    }
  }

  // ---------------------------------------------------------------- what the invariant means for the machine

  /** The layout, and with it the view, is determined by the stored tables. */
  lemma LayoutUnique(v: Vol, l: Layout, m: Layout)
    requires Core(v, l) && Core(v, m)
    ensures l.chains == m.chains
    ensures Abs(v, l) == Abs(v, m)
  {
    forall i | 0 <= i < FILE_MAX ensures l.chains[i] == m.chains[i] {
      assert SlotOk(v, l, i) && SlotOk(v, m, i);
      if Named(v.root[i]) { ChainUnique(v.fat, v.root[i].first, l.chains[i], m.chains[i]); }
    }
    assert DirOf(v, l) == DirOf(v, m);
  }

  /** Free entries plus the lengths of all chains plus the reserved entry make up the data blocks. */
  lemma BlocksConserved(v: Vol, l: Layout)
    requires Core(v, l)
    ensures Abs(v, l).free + TotalBlocks(l.chains) + 1 == v.sb.dataCount
  {
    Conservation(v.fat, v.sb.dataCount, l);
  }

  lemma {:induction false} ChainLength(chains: seq<seq<nat>>, i: nat)
    requires i < |chains|
    ensures |chains[i]| <= TotalBlocks(chains)
  {
    TotalUpdate(chains, i, []);
  }

  /** Sizes and offsets stay far below 2^31, and a chain block lies on the disk behind all metadata. */
  lemma MachineBounds(v: Vol, l: Layout, i: nat)
    requires Core(v, l) && i < FILE_MAX && Named(v.root[i])
    ensures v.root[i].size < 0x8000_0000
    ensures (Abs(v, l).free + |l.chains[i]|) * BLOCK_SIZE < 0x8000_0000
    ensures forall fd | 0 <= fd < FD_MAX && v.fds[fd].open != 0 :: v.fds[fd].offset < 0x8000_0000
    ensures forall k | 0 <= k < |l.chains[i]| ::
      l.chains[i][k] < FAT_EOC && v.sb.rootIndex < l.chains[i][k] + v.sb.rootIndex + 1 < |v.disk|
  {
    assert SlotOk(v, l, i);
    ChainFits(v, l, i);
    BlocksConserved(v, l);
    ChainLength(l.chains, i);
    forall fd | 0 <= fd < FD_MAX && v.fds[fd].open != 0 ensures v.fds[fd].offset < 0x8000_0000 {
      assert FdOk(v, v.fds[fd]);
      var j := v.fds[fd].fileIndex;
      assert SlotOk(v, l, j);
      ChainLength(l.chains, j);
    }
  }

  /** Blocks of different slots, or at different positions of one slot, are different. */
  lemma BlocksDiffer(v: Vol, l: Layout, i: nat, k: nat, j: nat, m: nat)
    requires Core(v, l) && InLayout(l, i, k) && InLayout(l, j, m) && (i, k) != (j, m)
    ensures l.chains[i][k] != l.chains[j][m]
  {
  }
}
