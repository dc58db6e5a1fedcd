/** The disk image of a volume: what unmounting writes, what mounting accepts and loads, and that they match. */
module VolumeImage {
  import opened FsTypes
  import opened Fat
  import opened Directory
  import opened DiskFormat
  import opened Volume

  /** The tests a mount makes on the super block of a disk with `blocks` blocks. */
  predicate Accepts(sb: SuperBlock, blocks: nat) {
    && sb.signature == SIGNATURE
    && 2 + sb.fatCount + sb.dataCount == blocks
    && 2 + sb.fatCount + sb.dataCount == sb.total
    && sb.fatCount + 1 == sb.rootIndex
    && sb.fatCount + 2 == sb.startIndex
  }

  predicate Mountable(disk: seq<Block>) {
    disk != [] && Accepts(GetSuper(disk[0]), |disk|)
  }

  /** The FAT stored in blocks 1 to `n`. */
  function LoadFat(disk: seq<Block>, n: nat): (fat: seq<nat>)
    requires n < |disk|
    ensures |fat| == n * FAT_SIZE
  {
    seq(n * FAT_SIZE, k requires 0 <= k < n * FAT_SIZE => GetFat(disk[1 + k / FAT_SIZE])[k % FAT_SIZE])
  }

  /** The tables that mounting loads from an acceptable disk. */
  function Load(disk: seq<Block>): (SuperBlock, seq<nat>, RootList)
    requires Mountable(disk)
  {
    var sb := GetSuper(disk[0]);
    (sb, LoadFat(disk, sb.fatCount), GetRoot(disk[sb.rootIndex]))
  }

  /** The tests of a mount, on the bytes of block 0. */
  lemma MountableBytes(disk: seq<Block>)
    ensures Mountable(disk) <==>
      && disk != []
      && var b: seq<int> := disk[0];
      && b[..8] == [69, 67, 83, 49, 53, 48, 70, 83]
      && b[8] + 256 * b[9] == |disk|
      && b[10] + 256 * b[11] == b[16] + 1
      && b[12] + 256 * b[13] == b[16] + 2
      && b[14] + 256 * b[15] + b[16] + 2 == |disk|
  {
  }

  /** Where the loaded tables stand on the disk: FAT entries of two bytes, low byte first, from block 1 on. */
  lemma FatBytes(disk: seq<Block>)
    requires Mountable(disk)
    ensures var fat := Load(disk).1; var n: int := disk[0][16];
      && n < |disk|
      && |fat| == 2048 * n
      && forall k | 0 <= k < |fat| ::
           var b: seq<int> := disk[1 + k / 2048]; fat[k] == b[2 * (k % 2048)] + 256 * b[2 * (k % 2048) + 1]
  {
    hide LoadFat, GetRoot;
    var n: int := disk[0][16];
    forall k | 0 <= k < 2048 * n
      ensures var b: seq<int> := disk[1 + k / 2048];
        LoadFat(disk, n)[k] == b[2 * (k % 2048)] + 256 * b[2 * (k % 2048) + 1]
    {
      FatByte(disk, n, k);
    }
  }

  lemma FatByte(disk: seq<Block>, n: nat, k: nat)
    requires n < |disk| && k < FAT_SIZE * n
    ensures var b: seq<int> := disk[1 + k / 2048];
      LoadFat(disk, n)[k] == b[2 * (k % 2048)] + 256 * b[2 * (k % 2048) + 1]
  {
  }

  /** Root entries of 32 bytes behind the FAT: 16 bytes of name, 4 of size, 2 for the first block. */
  lemma RootBytes(disk: seq<Block>)
    requires Mountable(disk)
    ensures var root := Load(disk).2; var n: int := disk[0][16];
      && n + 1 < |disk|
      && |root| == 128
      && var b: seq<int> := disk[n + 1];
      && forall i | 0 <= i < 128 ::
           && root[i].filename == b[32 * i..32 * i + 16]
           && root[i].size == b[32 * i + 16] + 0x100 * b[32 * i + 17] + 0x1_0000 * b[32 * i + 18]
                              + 0x100_0000 * b[32 * i + 19]
           && root[i].first == b[32 * i + 20] + 256 * b[32 * i + 21]
  {
    var n: int := disk[0][16];
    var b := disk[n + 1];
    forall i | 0 <= i < 128
      ensures Load(disk).2[i] == GetEntry(b[32 * i..32 * i + 32])
      ensures b[32 * i..32 * i + 32][..16] == b[32 * i..32 * i + 16]
    {
    }
  }

  /** FAT block `i` of a volume. */
  function FatRow(v: Vol, i: nat): FatBlock
    requires |v.fat| == v.sb.fatCount * FAT_SIZE && i < v.sb.fatCount
    requires forall b | 0 <= b < |v.fat| :: v.fat[b] < 0x1_0000
  {
    seq(FAT_SIZE, y requires 0 <= y < FAT_SIZE => v.fat[i * FAT_SIZE + y] as u16)
  }

  /** Block `b` of the disk after an unmount. */
  ghost function SavedBlock(v: Vol, b: nat): Block
    requires Shape(v) && b < |v.disk|
  {
    if b == 0 then PutSuper(v.sb)
    else if b <= v.sb.fatCount then PutFat(FatRow(v, b - 1))
    else if b == v.sb.rootIndex then PutRoot(v.root)
    else v.disk[b]
  }

  /** The disk after an unmount: metadata written back in front, data blocks as they are. */
  ghost function Saved(v: Vol): (disk: seq<Block>)
    requires Shape(v)
    ensures |disk| == |v.disk|
  {
    seq(|v.disk|, b requires 0 <= b < |v.disk| => SavedBlock(v, b))
  }

  /** A volume freshly mounted from `disk`, with descriptor table `fds`. */
  function Mounted(disk: seq<Block>, fds: seq<FileDes>, openCount: int): Vol
    requires Mountable(disk)
  {
    var (sb, fat, root) := Load(disk);
    Vol(sb, fat, root, fds, openCount, disk)
  }

  /** Mounting what was unmounted loads the same super block, FAT and root directory. */
  lemma SavedLoads(v: Vol)
    requires Shape(v)
    ensures Mountable(Saved(v))
    ensures Load(Saved(v)) == (v.sb, v.fat, v.root)
  {
    var disk := Saved(v);
    SuperRoundTrip(v.sb);
    assert disk[0] == PutSuper(v.sb);
    RootRoundTrip(v.root);
    assert disk[v.sb.rootIndex] == PutRoot(v.root);
    SavedFat(v);
  }

  lemma SavedFat(v: Vol)
    requires Shape(v)
    ensures LoadFat(Saved(v), v.sb.fatCount) == v.fat
  {
    hide PutFat, GetFat;
    var fat := LoadFat(Saved(v), v.sb.fatCount);
    forall k | 0 <= k < |v.fat| ensures fat[k] == v.fat[k] {
      var i := k / FAT_SIZE;
      assert i < v.sb.fatCount && Saved(v)[1 + i] == PutFat(FatRow(v, i));
      FatRoundTrip(FatRow(v, i));
      assert fat[k] == FatRow(v, i)[k % FAT_SIZE];
      assert i * FAT_SIZE + k % FAT_SIZE == k;
    }
  }

  /** Data blocks lie behind the metadata, so saving leaves the bytes of every file alone. */
  lemma SavedContent(v: Vol, l: Layout, i: nat)
    requires Core(v, l) && i < FILE_MAX && Named(v.root[i])
    ensures ChainOnDisk(Saved(v), Base(v), l.chains[i]) && v.root[i].size <= |l.chains[i]| * BLOCK_SIZE
    ensures ContentOf(Saved(v), Base(v), l.chains[i], v.root[i].size) == FileOf(v, l, i).content
  {
    assert SlotOk(v, l, i);
    ChainFits(v, l, i);
    var c := l.chains[i];
    forall k | 0 <= k < |c| ensures Saved(v)[Base(v) + c[k]] == v.disk[Base(v) + c[k]] {}
  }

  /**
    * Unmount and mount: whatever good descriptor table the new mount starts from, the volume is good again and has
    * the same files, with the same bytes, and the same free blocks.
    */
  lemma MountAfterUmount(v: Vol, l: Layout, fds: seq<FileDes>, openCount: int)
    requires Inv(v, l) && |fds| == FD_MAX && FdsOk(v.(fds := fds, openCount := openCount))
    ensures Mountable(Saved(v))
    ensures var w := Mounted(Saved(v), fds, openCount);
      && Inv(w, l)
      && Abs(w, l).files == Abs(v, l).files
      && Abs(w, l).free == Abs(v, l).free
  {
    SavedLoads(v);
    var w := Mounted(Saved(v), fds, openCount);
    assert w == v.(fds := fds, openCount := openCount, disk := Saved(v));
    RemountedCore(v, l, w);
    forall i | 0 <= i < FILE_MAX ensures DirOf(w, l)[i] == DirOf(v, l)[i] {
      if Named(v.root[i]) { SavedContent(v, l, i); }
    }
    assert DirOf(w, l) == DirOf(v, l);
  }

  /** All of it together, whatever descriptor table the memory holds. */
  lemma Remounted(v: Vol, l: Layout, fds: seq<FileDes>, openCount: int)
    requires Inv(v, l) && |fds| == FD_MAX
    ensures Mountable(Saved(v))
    ensures var w := Mounted(Saved(v), fds, openCount);
      && |w.root| == FILE_MAX
      && (w.sb, w.fat, w.root) == (v.sb, v.fat, v.root)
      && (Inv(w, l) <==> FdsOk(w))
      && (Inv(w, l) ==> Abs(w, l).files == Abs(v, l).files && Abs(w, l).free == Abs(v, l).free)
      && var cleared := w.(fds := ClosedTable(), openCount := 0);
      && Inv(cleared, l) && Abs(cleared, l).files == Abs(v, l).files && Abs(cleared, l).free == Abs(v, l).free
  {
    hide Abs, Saved;
    SavedLoads(v);
    SavedWellFormed(v, l);
    MountGood(Saved(v), l, fds, openCount);
    CountOpenFull(ClosedTable());
    MountAfterUmount(v, l, ClosedTable(), 0);
    if FdsOk(Mounted(Saved(v), fds, openCount)) { MountAfterUmount(v, l, fds, openCount); }
  }

  lemma RemountedCore(v: Vol, l: Layout, w: Vol)
    requires Inv(v, l) && w == v.(fds := w.fds, openCount := w.openCount, disk := w.disk)
    requires |w.disk| == |v.disk| && |w.fds| == FD_MAX && FdsOk(w)
    ensures Inv(w, l)
  {
    forall i | 0 <= i < FILE_MAX ensures SlotOk(w, l, i) { assert SlotOk(v, l, i); }
    assert Shape(w);
    assert Core(w, l);
  }

  /** What a mount cannot see: the FAT is as long as the data needs, and its chains are good. */
  ghost predicate WellFormed(disk: seq<Block>, l: Layout) {
    Mountable(disk) && Inv(Mounted(disk, ClosedTable(), 0), l)
  }

  function ClosedTable(): (fds: seq<FileDes>)
    ensures |fds| == FD_MAX && forall j | 0 <= j < FD_MAX :: fds[j].open == 0
  {
    seq(FD_MAX, j => FileDes(0, 0, 0))
  }

  /** A mount of a well-formed disk is good exactly when the descriptor table it starts from is consistent. */
  lemma MountGood(disk: seq<Block>, l: Layout, fds: seq<FileDes>, openCount: int)
    requires WellFormed(disk, l) && |fds| == FD_MAX
    ensures Inv(Mounted(disk, fds, openCount), l) <==> FdsOk(Mounted(disk, fds, openCount))
    ensures (forall j | 0 <= j < FD_MAX :: fds[j].open == 0) ==>
      (FdsOk(Mounted(disk, fds, openCount)) <==> openCount == 0)
  {
    var v, w := Mounted(disk, ClosedTable(), 0), Mounted(disk, fds, openCount);
    CountOpenFull(fds);
    if FdsOk(w) { RemountedCore(v, l, w); }
  }

  /** Saving a good volume yields a well-formed disk. */
  lemma SavedWellFormed(v: Vol, l: Layout)
    requires Inv(v, l)
    ensures WellFormed(Saved(v), l)
  {
    CountOpenFull(ClosedTable());
    MountAfterUmount(v, l, ClosedTable(), 0);
  }

  /**
    * From blocks to files: a root entry with a name is a file of the entry's size. Its bytes are those of the blocks
    * met by following the FAT from the entry's first block, block 0 of the data being the one behind the directory.
    */
  lemma ImageFile(disk: seq<Block>, l: Layout, i: nat, v: Vol, c: seq<nat>)
    requires WellFormed(disk, l) && i < 128 && v == Mounted(disk, ClosedTable(), 0) && c == l.chains[i]
    ensures v.root[i].filename[0] == 0 ==> c == []
    ensures v.root[i].filename[0] != 0 ==>
      && v.root[i].first == (if c == [] then 0xFFFF else c[0])
      && (forall k | 0 <= k < |c| :: c[k] < |v.fat| && v.fat[c[k]] == if k + 1 < |c| then c[k + 1] else 0xFFFF)
      && CStr(v.root[i].filename) in Abs(v, l).files
      && var s := Abs(v, l).files[CStr(v.root[i].filename)].content; var start: int := disk[0][16];
      && |s| == v.root[i].size <= 4096 * |c|
      && forall k | 0 <= k < |s| ::
           start + 2 + c[k / 4096] < |disk| && s[k] == disk[start + 2 + c[k / 4096]][k % 4096]
  {
    hide Inv, Core, GetRoot, LoadFat, Abs, FileOf, CStr;
    CoreOf(v, l);
    SlotLinks(v, l, i, c);
    if Named(v.root[i]) { SlotBytes(v, l, i); }
  }

  lemma CoreOf(v: Vol, l: Layout)
    requires Inv(v, l)
    ensures Core(v, l) && |l.chains| == FILE_MAX == |v.root|
  {
  }

  lemma SlotLinks(v: Vol, l: Layout, i: nat, c: seq<nat>)
    requires Core(v, l) && |l.chains| == FILE_MAX == |v.root| && i < FILE_MAX && c == l.chains[i]
    ensures !Named(v.root[i]) ==> c == []
    ensures Named(v.root[i]) ==>
      && v.root[i].first == (if c == [] then 0xFFFF else c[0])
      && forall k | 0 <= k < |c| :: c[k] < |v.fat| && v.fat[c[k]] == if k + 1 < |c| then c[k + 1] else 0xFFFF
  {
    hide Owned, Shape, FdsOk, NamesUnique;
    assert SlotOk(v, l, i);
    if Named(v.root[i]) {
      forall k | 0 <= k < |c|
        ensures c[k] < |v.fat| && v.fat[c[k]] == if k + 1 < |c| then c[k + 1] else 0xFFFF
      {
        assert Link(v.fat, c, k);
      }
    }
  }

  lemma SlotBytes(v: Vol, l: Layout, i: nat)
    requires Core(v, l) && |l.chains| == FILE_MAX == |v.root| && i < FILE_MAX && Named(v.root[i])
    ensures NameOf(v.root[i]) in Abs(v, l).files
    ensures var s := Abs(v, l).files[NameOf(v.root[i])].content; var c := l.chains[i];
      && |s| == v.root[i].size <= BLOCK_SIZE * |c|
      && forall k | 0 <= k < |s| ::
           Base(v) + c[k / BLOCK_SIZE] < |v.disk| && s[k] == v.disk[Base(v) + c[k / BLOCK_SIZE]][k % BLOCK_SIZE]
  {
    hide NamesUnique, FdsOk, Abs, Linked;
    assert SlotOk(v, l, i);
    ChainFits(v, l, i);
    FileAt(v, l, i);
  }

  /** And there are no other files. */
  lemma ImageNames(disk: seq<Block>, l: Layout, n: CString)
    requires WellFormed(disk, l)
    ensures var v := Mounted(disk, ClosedTable(), 0);
      n in Abs(v, l).files <==>
        exists i :: 0 <= i < 128 && v.root[i].filename[0] != 0 && CStr(v.root[i].filename) == n
  {
    var v := Mounted(disk, ClosedTable(), 0);
    var d := DirOf(v, l);
    ToMapHas(d, n);
    assert forall i | 0 <= i < 128 :: Named(v.root[i]) <==> d[i].Some?;
    if i :| 0 <= i < 128 && v.root[i].filename[0] != 0 && CStr(v.root[i].filename) == n {
      assert d[i].value.name == n;
    }
    if n in ToMap(d) {
      var i :| 0 <= i < |d| && d[i].Some? && d[i].value.name == n;
      assert v.root[i].filename[0] != 0;
    }
  }

  /** An unmount right after a mount writes back, byte for byte, what was there, padding included. */
  lemma NothingChanged(disk: seq<Block>, l: Layout, fds: seq<FileDes>, openCount: int)
    requires WellFormed(disk, l) && |fds| == FD_MAX
    ensures Shape(Mounted(disk, fds, openCount)) && Saved(Mounted(disk, fds, openCount)) == disk
  {
    hide GetSuper, PutSuper, GetRoot, PutRoot, GetFat, PutFat, Owned, SlotOk, FdsOk;
    var v := Mounted(disk, fds, openCount);
    forall b | 0 <= b < |disk| ensures SavedBlock(v, b) == disk[b] {
      SuperBack(disk[0]);
      RootBack(disk[v.sb.rootIndex]);
      if 1 <= b <= v.sb.fatCount { RowBack(v, b); }
    }
  }

  lemma RowBack(v: Vol, b: nat)
    requires Shape(v) && 1 <= b <= v.sb.fatCount && v.fat == LoadFat(v.disk, v.sb.fatCount)
    ensures PutFat(FatRow(v, b - 1)) == v.disk[b]
  {
    hide GetFat, PutFat;
    FatBack(v.disk[b]);
    forall y | 0 <= y < FAT_SIZE ensures FatRow(v, b - 1)[y] == GetFat(v.disk[b])[y] {
      assert ((b - 1) * FAT_SIZE + y) / FAT_SIZE == b - 1 && ((b - 1) * FAT_SIZE + y) % FAT_SIZE == y;
    }
    assert FatRow(v, b - 1) == GetFat(v.disk[b]);
  }

  // ---------------------------------------------------------------- a fresh volume

  const EMPTY_ENTRY: RootEntry := RootEntry(seq(FILENAME_LEN, _ => 0), 0, FAT_EOC, seq(10, _ => 0))

  /** A formatted volume without files, whatever its data blocks hold. */
  function Formatted(fatCount: byte, dataCount: u16, disk: seq<Block>): Vol
    requires 2 + fatCount + dataCount < 0x1_0000
  {
    var total: u16 := 2 + fatCount + dataCount;
    Vol(SuperBlock(SIGNATURE, total, fatCount + 1, fatCount + 2, dataCount, fatCount, seq(4079, _ => 0)),
        seq(fatCount * FAT_SIZE, k => if k == 0 then FAT_EOC else 0),
        seq(FILE_MAX, _ => EMPTY_ENTRY), ClosedTable(), 0, disk)
  }

  /** Good volumes of every size exist, and are well-formed disks: one data block is reserved, the others are free. */
  lemma FormattedGood(fatCount: byte, dataCount: u16, disk: seq<Block>)
    requires 1 <= dataCount <= fatCount * FAT_SIZE && 2 + fatCount + dataCount == |disk| < 0x1_0000
    ensures var v := Formatted(fatCount, dataCount, disk); var l := Layout(seq(FILE_MAX, _ => []), map[]);
      && Inv(v, l) && WellFormed(Saved(v), l)
      && Abs(v, l).files == map[] && Abs(v, l).free == dataCount - 1
  {
    var v, l := Formatted(fatCount, dataCount, disk), Layout(seq(FILE_MAX, _ => []), map[]);
    CountOpenFull(v.fds);
    assert forall i | 0 <= i < FILE_MAX :: !Named(v.root[i]) && NameOf(v.root[i]) == [];
    assert Inv(v, l);
    SavedWellFormed(v, l);
    NoNames(DirOf(v, l));
    NoBlocks(l.chains);
    BlocksConserved(v, l);
  }

  lemma {:induction false} NoNames(d: Dir)
    requires forall i | 0 <= i < |d| :: d[i].None?
    ensures ToMap(d) == map[]
  {
    if d != [] { NoNames(d[..|d| - 1]); }
  }

  lemma {:induction false} NoBlocks(chains: seq<seq<nat>>)
    requires forall i | 0 <= i < |chains| :: chains[i] == []
    ensures TotalBlocks(chains) == 0
  {
    if chains != [] { NoBlocks(chains[..|chains| - 1]); }
  }
}
