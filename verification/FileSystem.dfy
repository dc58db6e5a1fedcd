/** The mounted file system: tables and disk blocks updated in place, each operation refining its specification. */
module FileSystem {
  import opened FsTypes
  import opened Fat
  import opened FsSpec
  import opened Directory
  import opened Volume
  import opened VolumeSteps
  import opened VolumeWrite
  import opened DiskFormat
  import opened VolumeImage

  /** The FAT blocks read as one table: entry `k` is entry `k % 2048` of FAT block `k / 2048`. */
  ghost function FatSeq(fat: array2<u16>): (s: seq<nat>)
    requires fat.Length1 == FAT_SIZE
    reads fat
    ensures |s| == fat.Length0 * FAT_SIZE
  {
    seq(fat.Length0 * FAT_SIZE, k requires 0 <= k < fat.Length0 * FAT_SIZE reads fat => fat[k / FAT_SIZE, k % FAT_SIZE])
  }

  /** The number of the FAT block that holds the entry of a data block. */
  method FatBlockFinder(b: nat) returns (count: nat)
    ensures count == b / FAT_SIZE
  {
    var block := b;
    count := 0;
    while block > FAT_SIZE - 1
      invariant block >= 0 && block + count * FAT_SIZE == b
    {
      block := block - FAT_SIZE;
      count := count + 1;
    }
    assert b == FAT_SIZE * count + block;
  }

  lemma SliceSet(s: seq<byte>, k: nat, m: nat, x: byte)
    requires k <= m < |s|
    ensures var t := s[m := x]; t[..k] == s[..k] && t[k..m] == s[k..m] && t[m + 1..] == s[m..][1..]
  {
  }

  lemma SliceNext(s: seq<byte>, k: nat, m: nat)
    requires k <= m < |s|
    ensures s[k..m + 1] == s[k..m] + [s[m]]
  {
  }

  /** How many bytes one round of a read moves, when `want` are still wanted and `left` are left in the file. */
  function Chunk(q: nat, want: nat, left: nat): nat {
    Min(Min(BLOCK_SIZE - q % BLOCK_SIZE, want), left)
  }

  /** A round stays inside its block, and one that leaves something wanted behind ends at the next block. */
  lemma ChunkFacts(q: nat, want: nat, left: nat)
    ensures var m := Chunk(q, want, left);
      && m <= want && m <= left && q % BLOCK_SIZE + m <= BLOCK_SIZE
      && (want > 0 && left > 0 ==> m > 0)
      && (m < want && m < left ==> (q + m) / BLOCK_SIZE == q / BLOCK_SIZE + 1)
  {
  }

  lemma JoinPrefix(s: seq<byte>, k: nat, m: nat)
    requires k <= m <= |s|
    ensures s[..k] + s[k..m] == s[..m]
  {
  }

  class FileSystem {
    var diskOpen: bool
    var disk: array<Block>
    var sb: SuperBlock
    var root: array<RootEntry>
    var fat: array2<u16>
    var fds: array<FileDes>
    var count: int
    ghost var layout: Layout
    /** The memory of super block, root directory and FAT has been given back. */
    ghost var freed: bool

    ghost function Snap(): Vol
      requires fat.Length1 == FAT_SIZE
      reads this, disk, root, fat, fds
    {
      Vol(sb, FatSeq(fat), root[..], fds[..], count, disk[..])
    }

    /** The structural invariant, which also holds between the steps of a write. */
    ghost predicate Consistent()
      reads this, disk, root, fat, fds
    {
      fat.Length1 == FAT_SIZE && Core(Snap(), layout)
    }

    /** The tables are in memory, and good. */
    ghost predicate Tables()
      reads this, disk, root, fat, fds
    {
      !freed && fat.Length1 == FAT_SIZE && Inv(Snap(), layout)
    }

    /** A disk is open, and its tables are good. */
    ghost predicate Good()
      reads this, disk, root, fat, fds
    {
      diskOpen && Tables()
    }

    ghost function Meaning(): View
      requires Consistent()
      reads this, disk, root, fat, fds
    {
      Abs(Snap(), layout)
    }

    // -------------------------------------------------------------- table and block access

    method SetFat(i: nat, y: nat, x: u16)
      requires fat.Length1 == FAT_SIZE && i < fat.Length0 && y < FAT_SIZE
      modifies fat
      ensures Snap() == old(Snap()).(fat := old(Snap()).fat[i * FAT_SIZE + y := x])
    {
      ghost var before := FatSeq(fat);
      fat[i, y] := x;
      ghost var after := FatSeq(fat);
      forall k | 0 <= k < |after| ensures after[k] == before[i * FAT_SIZE + y := x as nat][k] {
        if k != i * FAT_SIZE + y {
          assert k == (k / FAT_SIZE) * FAT_SIZE + k % FAT_SIZE;
          assert (k / FAT_SIZE, k % FAT_SIZE) != (i, y);
        }
      }
      assert after == before[i * FAT_SIZE + y := x as nat];
    }

    method BlockRead(b: nat, buf: array<byte>) returns (r: int)
      requires buf.Length == BLOCK_SIZE
      modifies buf
      ensures r == if diskOpen && b < disk.Length then 0 else -1
      ensures buf[..] == if diskOpen && b < disk.Length then disk[b] else old(buf[..])
    {
      if !diskOpen { return -1; }
      if b >= disk.Length { return -1; }
      var data := disk[b];
      forall k | 0 <= k < BLOCK_SIZE { buf[k] := data[k]; }
      assert buf[..] == data;
      r := 0;
    }

    method BlockWrite(b: nat, buf: Block) returns (r: int)
      modifies disk
      ensures r == if diskOpen && b < disk.Length then 0 else -1
      ensures disk[..] == if diskOpen && b < disk.Length then old(disk[..])[b := buf] else old(disk[..])
    {
      if !diskOpen { return -1; }
      if b >= disk.Length { return -1; }
      disk[b] := buf;
      r := 0;
    }

    method FdCheck(fd: int) returns (r: int)
      requires Consistent()
      ensures r == if IsOpen(Meaning(), fd) then 0 else -1
    {
      if fd >= FD_MAX || fd < 0 { return -1; }
      FdAt(Snap(), layout, fd);
      if fds[fd].open == 0 { return -1; }
      r := 0;
    }

    // -------------------------------------------------------------- allocation

    /** First fit: the least free entry below the number of data blocks, or 0 when there is none. */
    method FindNextFat() returns (r: nat)
      requires Consistent()
      ensures r == 0 <==> Meaning().free == 0
      ensures r != 0 ==> r < sb.dataCount && Snap().fat[r] == 0 && forall b | 0 <= b < r :: Snap().fat[b] != 0
    {
      ghost var table := FatSeq(fat);
      var index, found, n := 0, false, 0;
      var i := 0;
      while i < sb.fatCount && !found
        invariant 0 <= i <= sb.fatCount
        invariant !found ==> n == i * FAT_SIZE && index == 0
        invariant found ==> index == n < |table| && table[n] == 0
        invariant n <= |table| && forall b | 0 <= b < n :: table[b] != 0
        decreases sb.fatCount - i, !found
      {
        var y := 0;
        while y < FAT_SIZE && !found
          invariant 0 <= y <= FAT_SIZE
          invariant !found ==> n == i * FAT_SIZE + y && index == 0
          invariant found ==> index == n < |table| && table[n] == 0
          invariant n <= |table| && forall b | 0 <= b < n :: table[b] != 0
          decreases FAT_SIZE - y, !found
        {
          assert n == i * FAT_SIZE + y && table[n] == fat[i, y];
          if fat[i, y] == 0 {
            index, found := n, true;
          } else {
            n := n + 1;
            y := y + 1;
          }
        }
        if !found { i := i + 1; }
      }
      CountZeroNone(table, sb.dataCount);
      if index >= sb.dataCount || index == 0 {
        r := 0;
      } else {
        r := index;
      }
    }

    // -------------------------------------------------------------- walking a chain to the current offset

    /** The chain of the file open on `fd`, as laid out in the table. */
    ghost function ChainOf(fd: int): seq<nat>
      requires Consistent() && IsOpen(Meaning(), fd)
      reads this, disk, root, fat, fds
    {
      FdAt(Snap(), layout, fd);
      layout.chains[fds[fd].fileIndex]
    }

    /** What the walks rely on: the links of chain `c`, and an offset that does not lie past its end. */
    ghost predicate Walkable(fd: int, c: seq<nat>)
      reads this, root, fat, fds
    {
      && fat.Length1 == FAT_SIZE
      && 0 <= fd < fds.Length && fds[fd].fileIndex < root.Length
      && root[fds[fd].fileIndex].first == At(c, 0)
      && fds[fd].offset / BLOCK_SIZE <= |c|
      && (forall k | 0 <= k < |c| :: c[k] != FAT_EOC)
      && (forall k | 0 <= k < |c| :: LinkHere(c, k))
    }

    /** The stored entry of element `k` holds the next element. */
    ghost predicate LinkHere(c: seq<nat>, k: nat)
      requires fat.Length1 == FAT_SIZE
      reads this, fat
    {
      k < |c| && c[k] < fat.Length0 * FAT_SIZE && fat[c[k] / FAT_SIZE, c[k] % FAT_SIZE] == At(c, k + 1)
    }

    lemma LinksHere(first: nat, c: seq<nat>)
      requires fat.Length1 == FAT_SIZE && Linked(FatSeq(fat), first, c)
      ensures forall k | 0 <= k < |c| :: LinkHere(c, k)
    {
      forall k | 0 <= k < |c| ensures LinkHere(c, k) { assert Link(FatSeq(fat), c, k); }
    }

    lemma WalkFacts(fd: int)
      requires Consistent() && IsOpen(Meaning(), fd)
      ensures Walkable(fd, ChainOf(fd))
      ensures Named(root[fds[fd].fileIndex])
      ensures root[fds[fd].fileIndex].size <= |ChainOf(fd)| * BLOCK_SIZE
      ensures fds[fd].offset <= root[fds[fd].fileIndex].size
      ensures forall k | 0 <= k < |ChainOf(fd)| :: 1 <= ChainOf(fd)[k] < sb.dataCount < FAT_EOC + 1
    {
      FdAt(Snap(), layout, fd);
      assert SlotOk(Snap(), layout, fds[fd].fileIndex);
      ChainFits(Snap(), layout, fds[fd].fileIndex);
      LinksHere(root[fds[fd].fileIndex].first, ChainOf(fd));
    }

    /** The block that holds the current offset, or the end marker when the offset is the end of the chain. */
    method FindDataIndex(fd: int, ghost c: seq<nat>) returns (index: nat)
      requires Walkable(fd, c)
      ensures index == At(c, fds[fd].offset / BLOCK_SIZE)
    {
      ghost var k := 0;
      index := root[fds[fd].fileIndex].first;
      var offset := fds[fd].offset;
      while offset > BLOCK_SIZE - 1
        invariant 0 <= offset && 0 <= k <= |c| && offset + k * BLOCK_SIZE == fds[fd].offset
        invariant index == At(c, k)
      {
        assert LinkHere(c, k);
        offset := offset - BLOCK_SIZE;
        var fatI := FatBlockFinder(index);
        var fatIndex := index % FAT_SIZE;
        index := fat[fatI, fatIndex];
        k := k + 1;
      }
      assert k == fds[fd].offset / BLOCK_SIZE;
    }

    /** The FAT block of the chain element one before the current offset, once the offset has left the first block. */
    method FindFatI(fd: int, ghost c: seq<nat>) returns (fatI: nat)
      requires Walkable(fd, c)
      ensures fds[fd].offset >= BLOCK_SIZE ==> fatI == c[fds[fd].offset / BLOCK_SIZE - 1] / FAT_SIZE
      ensures fds[fd].offset < BLOCK_SIZE ==> fatI == 0
    {
      ghost var k := 0;
      var index: nat := root[fds[fd].fileIndex].first;
      fatI := 0;
      var offset := fds[fd].offset;
      while offset > BLOCK_SIZE - 1
        invariant 0 <= offset && 0 <= k <= |c| && offset + k * BLOCK_SIZE == fds[fd].offset
        invariant index == At(c, k)
        invariant fatI == if k == 0 then 0 else c[k - 1] / FAT_SIZE
      {
        assert LinkHere(c, k);
        offset := offset - BLOCK_SIZE;
        fatI := FatBlockFinder(index);
        var fatIndex := index % FAT_SIZE;
        index := fat[fatI, fatIndex];
        k := k + 1;
      }
      assert k == fds[fd].offset / BLOCK_SIZE;
    }

    /** The position of that chain element inside its FAT block. */
    method FindFatIndex(fd: int, ghost c: seq<nat>) returns (fatIndex: nat)
      requires Walkable(fd, c)
      ensures fds[fd].offset >= BLOCK_SIZE ==> fatIndex == c[fds[fd].offset / BLOCK_SIZE - 1] % FAT_SIZE
      ensures fds[fd].offset < BLOCK_SIZE ==> fatIndex == 0
    {
      ghost var k := 0;
      var index: nat := root[fds[fd].fileIndex].first;
      fatIndex := 0;
      var offset := fds[fd].offset;
      while offset > BLOCK_SIZE - 1
        invariant 0 <= offset && 0 <= k <= |c| && offset + k * BLOCK_SIZE == fds[fd].offset
        invariant index == At(c, k)
        invariant fatIndex == if k == 0 then 0 else c[k - 1] % FAT_SIZE
      {
        assert LinkHere(c, k);
        offset := offset - BLOCK_SIZE;
        var fatI := FatBlockFinder(index);
        fatIndex := index % FAT_SIZE;
        index := fat[fatI, fatIndex];
        k := k + 1;
      }
      assert k == fds[fd].offset / BLOCK_SIZE;
    }

    // -------------------------------------------------------------- creating and deleting

    method FindRootIndex(filename: CString) returns (index: nat)
      requires Consistent()
      ensures index == if FindRoot(root[..], filename) < FILE_MAX then FindRoot(root[..], filename) else FILE_MAX + 1
    {
      var i := 0;
      while i < FILE_MAX
        invariant 0 <= i <= FILE_MAX
        invariant forall j | 0 <= j < i :: NameOf(root[j]) != filename
      {
        if CStr(root[i].filename) == filename { return i; }
        i := i + 1;
      }
      index := FILE_MAX + 1;
    }

    method Create(filename: CString) returns (r: int)
      requires Good()
      modifies root
      ensures Good()
      ensures (Meaning(), r) == DoCreate(old(Meaning()), filename)
    {
      if |filename| >= FILENAME_LEN || |filename| <= 0 { return -1; }
      hide DoCreate, FatSeq, Created;
      ghost var v := Snap();
      var i := 0;
      while i < FILE_MAX
        invariant 0 <= i <= FILE_MAX
        invariant forall j | 0 <= j < i :: NameOf(root[j]) != filename
      {
        if CStr(root[i].filename) == filename {
          CreateFails(v, layout, filename);
          return -1;
        }
        i := i + 1;
      }
      ghost var slot: nat;
      r, slot := FillSlot(filename);
      if r == 0 {
        CreatedSpec(v, layout, slot, filename);
      } else {
        CreateFails(v, layout, filename);
      }
    }

    /** Makes the first unnamed slot an empty file of that name; fails when every slot is named. */
    method FillSlot(filename: CString) returns (r: int, ghost slot: nat)
      requires fat.Length1 == FAT_SIZE && root.Length == FILE_MAX && |filename| < FILENAME_LEN
      modifies root
      ensures r == 0 || r == -1
      ensures r == 0 ==>
        slot < FILE_MAX && !old(Named(root[slot])) && Snap() == Created(old(Snap()), slot, filename)
      ensures r == -1 ==> Snap() == old(Snap()) && forall j | 0 <= j < FILE_MAX :: Named(root[j])
    {
      ghost var v := Snap();
      slot := 0;
      var i := 0;
      while i < FILE_MAX
        invariant 0 <= i <= FILE_MAX
        invariant forall j | 0 <= j < i :: Named(root[j])
      {
        if root[i].filename[0] == 0 {
          root[i] := RootEntry(StrCpy(root[i].filename, filename), 0, FAT_EOC, root[i].padding);
          assert root[..] == v.root[i := NewEntry(v.root[i], filename)];
          return 0, i;
        }
        i := i + 1;
      }
      r := -1;
    }

    /** Zeroes the entries of a chain while walking it. */
    method FreeChain(first: nat, ghost c: seq<nat>)
      requires fat.Length1 == FAT_SIZE && Linked(Snap().fat, first, c)
      requires forall j, k | 0 <= j < k < |c| :: c[j] != c[k]
      modifies fat
      ensures Snap() == old(Snap()).(fat := FreeTable(old(Snap()).fat, c))
    {
      ghost var v := Snap();
      var index := first;
      ghost var k := 0;
      while index != FAT_EOC
        invariant 0 <= k <= |c| && index == At(c, k)
        invariant Snap() == v.(fat := FreeTable(v.fat, c[..k]))
        decreases |c| - k
      {
        var fatI := FatBlockFinder(index);
        var fatIndex := index % FAT_SIZE;
        assert fat[fatI, fatIndex] == FatSeq(fat)[index];
        assert Link(v.fat, c, k);
        FreeTableAt(v.fat, c[..k], index);
        index := fat[fatI, fatIndex];
        SetFat(fatI, fatIndex, 0);
        assert c[..k + 1][..k] == c[..k];
        k := k + 1;
      }
      assert c[..k] == c;
    }

    /**
      * There is no test whether the file is open: chain and name go in any case. The result is the specified one, and
      * the volume stays good, exactly when no descriptor is open on the deleted file.
      */
    method Delete(filename: CString) returns (r: int)
      requires Good()
      modifies this`layout, root, fat
      ensures r == DoDelete(old(Meaning()), filename).1
      ensures r == -1 ==> Good() && Meaning() == old(Meaning())
      ensures r == 0 ==> (Good() <==> !OpenOn(old(Meaning()), filename))
      ensures r == 0 ==>
        var v, i := old(Snap()), FindRoot(old(Snap()).root, filename);
        && i < FILE_MAX == |old(layout).chains| == |v.root|
        && (forall k | 0 <= k < |old(layout).chains[i]| :: old(layout).chains[i][k] < |v.fat|)
        && fat.Length1 == FAT_SIZE
        && Snap() == Deleted(v, i, old(layout).chains[i])
      ensures Good() ==> Meaning() == DoDelete(old(Meaning()), filename).0
    {
      if |filename| >= FILENAME_LEN || |filename| <= 0 { return -1; }
      ghost var v, l := Snap(), layout;
      FindNamed(v, l, filename);
      var rootCurrent := FindRootIndex(filename);
      if rootCurrent == FILE_MAX + 1 { return -1; }
      DeletedEither(v, l, rootCurrent);
      FileAt(v, l, rootCurrent);
      EraseSlot(rootCurrent);
      r := 0;
    }

    /** Frees the chain of slot `i` and erases its name. */
    method EraseSlot(i: nat)
      requires Consistent() && i < FILE_MAX && Named(root[i])
      requires forall k | 0 <= k < |layout.chains[i]| :: layout.chains[i][k] < |Snap().fat|
      modifies this`layout, root, fat
      ensures fat.Length1 == FAT_SIZE
      ensures Snap() == Deleted(old(Snap()), i, old(layout).chains[i])
      ensures layout == FreeLayout(old(layout), i)
    {
      ghost var v, c := Snap(), layout.chains[i];
      SlotChain(v, layout, i);
      var index := root[i].first;
      if index != FAT_EOC { FreeChain(index, c); }
      assert Snap() == v.(fat := FreeTable(v.fat, c));
      root[i] := root[i].(filename := root[i].filename[0 := 0]);
      layout := FreeLayout(layout, i);
      assert root[..] == v.root[i := ErasedEntry(v.root[i])];
    }

    // -------------------------------------------------------------- descriptors

    /** The least closed slot. */
    method FindClosed() returns (i: nat)
      requires Consistent() && LeastClosed(Meaning().fds) < FD_MAX
      ensures i == LeastClosed(Meaning().fds)
      ensures i < FD_MAX && fds[i].open == 0
    {
      OpenSlots(Snap(), layout);
      ClosedExists(Snap(), layout);
      i := 0;
      while fds[i].open != 0
        invariant 0 <= i < FD_MAX
        invariant forall j | 0 <= j < i :: fds[j].open != 0
        decreases FD_MAX - i
      {
        i := i + 1;
      }
    }

    /** Overwrites one slot of the descriptor table. */
    method SetFd(fd: nat, d: FileDes, n: int)
      requires Good() && fd < FD_MAX && FdOk(Snap(), d)
      requires n == count - (if fds[fd].open != 0 then 1 else 0) + (if d.open != 0 then 1 else 0)
      modifies this`count, fds
      ensures Good()
      ensures Meaning() == old(Meaning()).(fds := old(Meaning()).fds[fd := HandleOf(root[..], d)])
    {
      ghost var v := Snap();
      WithFdView(v, layout, fd, d, n);
      fds[fd] := d;
      count := n;
      assert Snap() == WithFd(v, fd, d, n);
    }

    method Open(filename: CString) returns (r: int)
      requires Good()
      modifies this`count, fds
      ensures Good()
      ensures (Meaning(), r) == DoOpen(old(Meaning()), filename)
    {
      if |filename| >= FILENAME_LEN || |filename| <= 0 { return -1; }
      OpenSlots(Snap(), layout);
      if count == FD_MAX { return -1; }
      FindNamed(Snap(), layout, filename);
      var index := FindRootIndex(filename);
      if index == FILE_MAX + 1 { return -1; }
      var i := FindClosed();
      SetFd(i, FileDes(index, 0, 1), count + 1);
      r := i;
    }

    method Close(fd: int) returns (r: int)
      requires Good()
      modifies this`count, fds
      ensures Good()
      ensures (Meaning(), r) == DoClose(old(Meaning()), fd)
    {
      var ok := FdCheck(fd);
      if ok == -1 { return -1; }
      FdAt(Snap(), layout, fd);
      SetFd(fd, FileDes(0, 0, 0), count - 1);
      r := 0;
    }

    method Stat(fd: int) returns (r: int)
      requires Good()
      ensures Valid(Meaning())
      ensures r == DoStat(Meaning(), fd)
    {
      AbsValid(Snap(), layout);
      var ok := FdCheck(fd);
      if ok == -1 { return -1; }
      FdAt(Snap(), layout, fd);
      r := root[fds[fd].fileIndex].size;
    }

    method Lseek(fd: int, offset: nat) returns (r: int)
      requires Good()
      modifies this`count, fds
      ensures Valid(old(Meaning())) && Good()
      ensures (Meaning(), r) == DoLseek(old(Meaning()), fd, offset)
    {
      AbsValid(Snap(), layout);
      var ok := FdCheck(fd);
      if ok == -1 { return -1; }
      FdAt(Snap(), layout, fd);
      if offset > root[fds[fd].fileIndex].size { return -1; }
      SetFd(fd, fds[fd].(offset := offset), count);
      r := 0;
    }

    // -------------------------------------------------------------- writing

    /** Makes `nb` the first block of slot `i`. */
    method SetFirst(i: nat, nb: nat)
      requires Consistent() && i < FILE_MAX && layout.chains[i] == [] && 1 <= nb < sb.dataCount
      modifies this`layout, root, fat
      ensures fat.Length1 == FAT_SIZE
      ensures Snap() == Grown(old(Snap()), old(layout), i, nb)
      ensures layout == GrowLayout(old(layout), i, nb)
    {
      ghost var v := Snap();
      root[i] := root[i].(first := nb);
      var fatI := FatBlockFinder(nb);
      var fatIndex := nb % FAT_SIZE;
      SetFat(fatI, fatIndex, FAT_EOC);
      layout := GrowLayout(layout, i, nb);
      assert root[..] == v.root[i := v.root[i].(first := nb)];
    }

    /** Links `nb` behind the block whose entry is (`lastI`, `lastIndex`), the last of slot `i`. */
    method LinkBehind(i: nat, lastI: nat, lastIndex: nat, nb: nat)
      requires Consistent() && i < FILE_MAX && Named(root[i]) && layout.chains[i] != [] && 1 <= nb < sb.dataCount
      requires layout.chains[i][0] < FAT_EOC && layout.chains[i][|layout.chains[i]| - 1] < |Snap().fat|
      requires lastI == layout.chains[i][|layout.chains[i]| - 1] / FAT_SIZE
      requires lastIndex == layout.chains[i][|layout.chains[i]| - 1] % FAT_SIZE
      modifies this`layout, fat
      ensures fat.Length1 == FAT_SIZE
      ensures Snap() == Grown(old(Snap()), old(layout), i, nb)
      ensures layout == GrowLayout(old(layout), i, nb)
    {
      ghost var v := Snap();
      SlotChain(v, layout, i);
      SetFat(lastI, lastIndex, nb);
      var fatI := FatBlockFinder(nb);
      var fatIndex := nb % FAT_SIZE;
      SetFat(fatI, fatIndex, FAT_EOC);
      layout := GrowLayout(layout, i, nb);
      assert v.root[i := v.root[i].(first := v.root[i].first)] == v.root;
    }

    /** Gives an empty file its first block; 0 when the disk is full. */
    method AllocFirst(i: nat) returns (index: nat)
      requires Good() && i < FILE_MAX && Named(root[i]) && layout.chains[i] == []
      modifies this`layout, root, fat
      ensures fat.Length1 == FAT_SIZE && Allocation(old(Snap()), old(layout), i, index, Snap(), layout)
    {
      index := FindNextFat();
      if index != 0 { SetFirst(i, index); }
    }

    /** Gives a nonempty file one more block; 0 when the disk is full. */
    method AllocNext(i: nat, lastI: nat, lastIndex: nat) returns (index: nat)
      requires Good() && i < FILE_MAX && Named(root[i]) && layout.chains[i] != []
      requires lastI == layout.chains[i][|layout.chains[i]| - 1] / FAT_SIZE
      requires lastIndex == layout.chains[i][|layout.chains[i]| - 1] % FAT_SIZE
      modifies this`layout, fat
      ensures fat.Length1 == FAT_SIZE && Allocation(old(Snap()), old(layout), i, index, Snap(), layout)
    {
      LastFits(Snap(), layout, i);
      index := FindNextFat();
      if index != 0 { LinkBehind(i, lastI, lastIndex, index); }
    }

    /**
      * Copies bytes from `buf` into a block buffer from the file offset on, advancing the offset and, past the
      * old end, the size.
      */
    method CopyIn(fd: nat, i: nat, block: array<byte>, buf: seq<byte>, done: nat, n: nat)
      returns (bufCount: nat)
      requires block.Length == BLOCK_SIZE && fd < fds.Length && i < root.Length && done < n <= |buf|
      requires fds[fd].offset <= root[i].size < 0x8000_0000
      modifies block, root, fds
      ensures bufCount == done + Min(BLOCK_SIZE - old(fds[fd].offset) % BLOCK_SIZE, n - done)
      ensures block[..] == Overlay(old(block[..]), old(fds[fd].offset) % BLOCK_SIZE, buf[done..bufCount])
      ensures var size := Max(old(root[i].size), old(fds[fd].offset) + bufCount - done);
        root[..] == old(root[..])[i := old(root[i]).(size := size)]
      ensures fds[..] == old(fds[..])[fd := old(fds[fd]).(offset := old(fds[fd].offset) + bufCount - done)]
    {
      hide Overlay;
      bufCount := done;
      var offset := fds[fd].offset % BLOCK_SIZE;
      ghost var o, z, b := fds[fd].offset, root[i], block[..];
      OverlayNothing(b, offset, buf[done..done]);
      var k := offset;
      while k < BLOCK_SIZE
        invariant offset <= k <= BLOCK_SIZE
        invariant bufCount == done + (k - offset) <= n
        invariant block[..] == Overlay(b, offset, buf[done..bufCount])
        invariant root[..] == old(root[..])[i := z.(size := Max(z.size, o + (k - offset)))]
        invariant fds[..] == old(fds[..])[fd := old(fds[fd]).(offset := o + (k - offset))]
      {
        if bufCount < n {
          OverlayNext(b, offset, buf[done..bufCount], buf[bufCount]);
          SliceNext(buf, done, bufCount);
          block[k] := buf[bufCount];
          bufCount := bufCount + 1;
          fds[fd] := fds[fd].(offset := fds[fd].offset + 1);
          if fds[fd].offset > root[i].size {
            root[i] := root[i].(size := root[i].size + 1);
          }
        } else {
          break;
        }
        k := k + 1;
      }
    }

    /** Reads a data block, writes bytes into it at the file offset and stores it back. */
    method RewriteBlock(fd: nat, i: nat, index: nat, buf: seq<byte>, done: nat, n: nat) returns (bufCount: nat)
      requires diskOpen
      requires fat.Length1 == FAT_SIZE && fd < fds.Length && i == fds[fd].fileIndex < root.Length && done < n <= |buf|
      requires fds[fd].offset <= root[i].size < 0x8000_0000 && index + sb.rootIndex + 1 < disk.Length
      modifies disk, root, fds
      ensures bufCount == done + Min(BLOCK_SIZE - old(fds[fd].offset) % BLOCK_SIZE, n - done)
      ensures Snap() == StoredAt(old(Snap()), fd, Base(old(Snap())) + index, buf[done..bufCount])
    {
      hide Overlay;
      var block := new byte[BLOCK_SIZE];
      var dataIndex := index + sb.rootIndex + 1;
      var _ := BlockRead(dataIndex, block);
      bufCount := CopyIn(fd, i, block, buf, done, n);
      var _ := BlockWrite(dataIndex, block[..]);
    }

    /** Finds the block at the offset, linking a new one at the end of the chain; 0 when the disk is full. */
    method Extend(i: nat, at: nat, lastI: nat, lastIndex: nat) returns (index: nat)
      requires Good() && i < FILE_MAX && Named(root[i])
      requires layout.chains[i] != []
      requires at == FAT_EOC ==> lastI == layout.chains[i][|layout.chains[i]| - 1] / FAT_SIZE
      requires at == FAT_EOC ==> lastIndex == layout.chains[i][|layout.chains[i]| - 1] % FAT_SIZE
      modifies this`layout, fat
      ensures fat.Length1 == FAT_SIZE && Extended(old(Snap()), old(layout), i, at, index, Snap(), layout)
    {
      index := at;
      if index == FAT_EOC { index := AllocNext(i, lastI, lastIndex); }
    }

    /** One round of a write: find or link the block at the offset, fill it, and move to the next. */
    method WriteRound(fd: nat, i: nat, at: nat, lastI: nat, lastIndex: nat, buf: seq<byte>, done: nat, n: nat,
                      ghost a: View)
      returns (bufCount: nat, index: nat, fatI: nat, fatIndex: nat)
      requires diskOpen && !freed
      requires fat.Length1 == FAT_SIZE && done < n <= |buf| && Writing(a, Snap(), layout, fd, i, buf[..done])
      requires AtCursor(fds[fd].offset, layout.chains[i], at, lastI, lastIndex)
      modifies this`layout, disk, root, fat, fds
      ensures fat.Length1 == FAT_SIZE && done <= bufCount <= n && Writing(a, Snap(), layout, fd, i, buf[..bufCount])
      ensures index == 0 ==>
        bufCount == done && Meaning().free == 0 && fds[fd].offset == |layout.chains[i]| * BLOCK_SIZE
      ensures index != 0 ==>
        bufCount > done && (bufCount < n ==> AtCursor(fds[fd].offset, layout.chains[i], index, fatI, fatIndex))
    {
      ghost var v, l := Snap(), layout;
      WritingFacts(a, v, l, fd, i, buf[..done]);
      ChainFits(v, l, i);
      bufCount, fatI, fatIndex := done, lastI, lastIndex;
      index := Extend(i, at, lastI, lastIndex);
      if index == 0 {
        NotExtended(a, v, l, fd, i, buf[..done], at, index, Snap(), layout);
        return;
      }
      ExtendedReady(a, v, l, fd, i, buf[..done], at, index, Snap(), layout);
      bufCount, index, fatI, fatIndex := FillRound(fd, i, index, buf, done, n, a);
    }

    /** The second half of a round. */
    method FillRound(fd: nat, i: nat, nb: nat, buf: seq<byte>, done: nat, n: nat, ghost a: View)
      returns (bufCount: nat, index: nat, fatI: nat, fatIndex: nat)
      requires diskOpen
      requires fat.Length1 == FAT_SIZE && done < n <= |buf| && Ready(a, Snap(), layout, fd, i, buf[..done], nb)
      modifies disk, root, fds
      ensures done < bufCount <= n && Writing(a, Snap(), layout, fd, i, buf[..bufCount])
      ensures index != 0
      ensures bufCount < n ==> AtCursor(fds[fd].offset, layout.chains[i], index, fatI, fatIndex)
    {
      hide Overlay, Splice, StoredAt, Core, Inv, InvBut, Abs, Progress, Seated;
      ghost var v, l := Snap(), layout;
      ReadyFacts(a, v, l, fd, i, buf[..done], nb);
      bufCount := RewriteBlock(fd, i, nb, buf, done, n);
      StoredWriting(a, v, l, fd, i, buf[..done], nb, buf[done..bufCount]);
      JoinPrefix(buf, done, bufCount);
      assert Snap() == StoredAt(v, fd, Base(v) + nb, buf[done..bufCount]);
      if bufCount < n { NextCursor(a, v, l, fd, i, buf[..done], nb, buf[done..bufCount]); }
      fatI := FatBlockFinder(nb);
      fatIndex := nb % FAT_SIZE;
      assert fat[fatI, fatIndex] == FatSeq(fat)[nb];
      index := fat[fatI, fatIndex];
    }

    /** Sees to it that the file has a first block; 0 when it has none and the disk is full. */
    method FirstBlock(i: nat) returns (index: nat)
      requires Good() && i < FILE_MAX && Named(root[i])
      modifies this`layout, root, fat
      ensures fat.Length1 == FAT_SIZE
      ensures if old(layout).chains[i] == [] then Allocation(old(Snap()), old(layout), i, index, Snap(), layout)
              else index == old(layout).chains[i][0] && Snap() == old(Snap()) && layout == old(layout)
    {
      SlotChain(Snap(), layout, i);
      index := root[i].first;
      if index == FAT_EOC { index := AllocFirst(i); }
    }

    method Write(fd: int, buf: seq<byte>, n: nat) returns (r: int)
      requires Good() && n <= |buf|
      modifies this`layout, disk, root, fat, fds
      ensures Valid(old(Meaning())) && Good()
      ensures (Meaning(), r) == DoWrite(old(Meaning()), fd, buf[..n])
    {
      hide Owned, SlotOk, Splice;
      AbsValid(Snap(), layout);
      var ok := FdCheck(fd);
      if ok == -1 { return -1; }
      FdAt(Snap(), layout, fd);
      r := WriteThrough(fd, buf, n);
    }

    /** A write through an open descriptor. */
    method WriteThrough(fd: nat, buf: seq<byte>, n: nat) returns (r: nat)
      requires Good() && n <= |buf| && fd < FD_MAX && fds[fd].open != 0
      modifies this`layout, disk, root, fat, fds
      ensures Valid(old(Meaning())) && Good()
      ensures (Meaning(), r) == DoWrite(old(Meaning()), fd, buf[..n])
    {
      hide Owned, SlotOk, Shape, Splice;
      AbsValid(Snap(), layout);
      ghost var a, v, l := Meaning(), Snap(), layout;
      FdAt(v, l, fd);
      var i := fds[fd].fileIndex;
      var bufCount := 0;
      var first := FirstBlock(i);
      FirstWriting(a, v, l, fd, i, first, Snap(), layout);
      if first == 0 {
        assert buf[..n][..0] == [];
        ProgressDone(a, fd, buf[..n], 0, 0);
        return bufCount;
      }
      assert buf[..0] == [];
      bufCount := WriteFrom(fd, i, buf, n, a);
      WritingDone(a, Snap(), layout, fd, i, buf, bufCount, n);
      r := bufCount;
    }

    /** The rounds of a write, from the block that holds the offset on. */
    method WriteFrom(fd: nat, i: nat, buf: seq<byte>, n: nat, ghost a: View) returns (bufCount: nat)
      requires diskOpen && !freed
      requires fat.Length1 == FAT_SIZE && n <= |buf| && Writing(a, Snap(), layout, fd, i, buf[..0])
      modifies this`layout, disk, root, fat, fds
      ensures fat.Length1 == FAT_SIZE && bufCount <= n && Writing(a, Snap(), layout, fd, i, buf[..bufCount])
      ensures bufCount < n ==> Meaning().free == 0 && fds[fd].offset == |layout.chains[i]| * BLOCK_SIZE
    {
      hide Owned, SlotOk, Abs;
      bufCount := 0;
      ghost var c := layout.chains[i];
      var index, fatI, fatIndex := Locate(fd, c);
      while index != 0 && bufCount < n
        invariant fat.Length1 == FAT_SIZE && bufCount <= n && Writing(a, Snap(), layout, fd, i, buf[..bufCount])
        invariant index == 0 ==>
          bufCount < n && Meaning().free == 0 && fds[fd].offset == |layout.chains[i]| * BLOCK_SIZE
        invariant index != 0 && bufCount < n ==> AtCursor(fds[fd].offset, layout.chains[i], index, fatI, fatIndex)
        decreases n - bufCount, index
      {
        bufCount, index, fatI, fatIndex := WriteRound(fd, i, index, fatI, fatIndex, buf, bufCount, n, a);
      }
    }

    /** The three walks to the offset. */
    method Locate(fd: nat, ghost c: seq<nat>) returns (index: nat, fatI: nat, fatIndex: nat)
      requires Consistent() && fd < FD_MAX && fds[fd].open != 0 && c == layout.chains[fds[fd].fileIndex] != []
      ensures index != 0 && AtCursor(fds[fd].offset, c, index, fatI, fatIndex)
    {
      FdAt(Snap(), layout, fd);
      WalkFacts(fd);
      index := FindDataIndex(fd, c);
      fatI := FindFatI(fd, c);
      fatIndex := FindFatIndex(fd, c);
    }

    // -------------------------------------------------------------- reading

    /** Copies bytes of a block from the file offset on into `buf`, advancing the offset, up to `n` bytes or `size`. */
    method CopyOut(fd: nat, block: array<byte>, buf: array<byte>, done: nat, n: nat, size: nat) returns (bufCount: nat)
      requires block.Length == BLOCK_SIZE && fd < fds.Length && done < n <= buf.Length && buf != block
      requires fds[fd].offset < size
      modifies buf, fds
      ensures bufCount == done + Chunk(old(fds[fd].offset), n - done, size - old(fds[fd].offset))
      ensures buf[..done] == old(buf[..done]) && buf[bufCount..] == old(buf[bufCount..])
      ensures var p := old(fds[fd].offset) % BLOCK_SIZE; buf[done..bufCount] == block[p..p + (bufCount - done)]
      ensures fds[..] == old(fds[..])[fd := old(fds[fd]).(offset := old(fds[fd].offset) + bufCount - done)]
    {
      bufCount := done;
      var offset := fds[fd].offset % BLOCK_SIZE;
      ghost var o := fds[fd].offset;
      var k := offset;
      while k < BLOCK_SIZE
        invariant offset <= k <= BLOCK_SIZE
        invariant bufCount == done + (k - offset) <= n && o + (k - offset) <= size
        invariant buf[..done] == old(buf[..done]) && buf[bufCount..] == old(buf[bufCount..])
        invariant buf[done..bufCount] == block[offset..k]
        invariant fds[..] == old(fds[..])[fd := old(fds[fd]).(offset := o + (k - offset))]
      {
        if bufCount < n && fds[fd].offset < size {
          SliceSet(buf[..], done, bufCount, block[k]);
          buf[bufCount] := block[k];
          SliceNext(buf[..], done, bufCount);
          SliceNext(block[..], offset, k);
          bufCount := bufCount + 1;
          fds[fd] := fds[fd].(offset := fds[fd].offset + 1);
        } else {
          break;
        }
        k := k + 1;
      }
    }

    /** Fetches disk block `b` and copies out what is wanted of it from the file offset `q` on. */
    method FetchBlock(fd: nat, b: nat, buf: array<byte>, done: nat, n: nat, size: nat, ghost q: nat)
      returns (bufCount: nat)
      requires diskOpen
      requires fat.Length1 == FAT_SIZE && fd < fds.Length && done < n <= buf.Length && b < disk.Length
      requires fds[fd].offset == q < size
      modifies buf, fds
      ensures bufCount == done + Chunk(q, n - done, size - q)
      ensures buf[..done] == old(buf[..done]) && buf[bufCount..] == old(buf[bufCount..])
      ensures buf[done..bufCount] == old(Snap()).disk[b][q % BLOCK_SIZE..q % BLOCK_SIZE + (bufCount - done)]
      ensures Snap() == Advanced(old(Snap()), fd, bufCount - done)
    {
      var block := new byte[BLOCK_SIZE];
      var _ := BlockRead(b, block);
      bufCount := CopyOut(fd, block, buf, done, n, size);
      assert block[..] == disk[b];
    }

    /** One round of a read: the bytes of content `s` from the current offset `q` on. */
    method ReadRound(fd: nat, i: nat, buf: array<byte>, done: nat, n: nat, ghost q: nat,
                     ghost v: Vol, ghost l: Layout, ghost c: seq<nat>, ghost s: seq<byte>)
      returns (bufCount: nat)
      requires diskOpen
      requires fat.Length1 == FAT_SIZE && OpenAt(v, fd, i) && Reads(v, l, i, c, s) && done < n <= buf.Length
      requires q == v.fds[fd].offset + done < |s|
      requires Snap() == Advanced(v, fd, done) && Walkable(fd, c)
      modifies buf, fds
      ensures bufCount == done + Chunk(q, n - done, |s| - q)
      ensures done < bufCount <= n && q + (bufCount - done) <= |s|
      ensures Snap() == Advanced(v, fd, bufCount)
      ensures buf[..done] == old(buf[..done]) && buf[bufCount..] == old(buf[bufCount..])
      ensures buf[done..bufCount] == s[q..q + (bufCount - done)]
    {
      hide Reads, Chunk, FatSeq, Advanced;
      AdvancedFields(v, fd, done);
      assert fds[fd] == Snap().fds[fd];
      assert fds[fd].offset == q;
      var index := FindDataIndex(fd, c);
      ReadsSlice(v, l, i, c, s, q, 0);
      assert index == c[q / BLOCK_SIZE];
      assert Snap().sb == v.sb && Snap().disk == v.disk && Snap().root == v.root;
      var dataIndex := index + sb.rootIndex + 1;
      var size := root[i].size;
      ChunkFacts(q, n - done, |s| - q);
      bufCount := FetchBlock(fd, dataIndex, buf, done, n, size, q);
      AdvancedTwice(v, fd, done, bufCount - done);
      ReadsSlice(v, l, i, c, s, q, bufCount - done);
    }

    /** The same round, with what it delivers joined to what was delivered before. */
    method ReadMore(fd: nat, i: nat, buf: array<byte>, done: nat, n: nat, ghost o: nat,
                    ghost v: Vol, ghost l: Layout, ghost c: seq<nat>, ghost s: seq<byte>)
      returns (bufCount: nat)
      requires diskOpen
      requires fat.Length1 == FAT_SIZE && OpenAt(v, fd, i) && Reads(v, l, i, c, s) && done < n <= buf.Length
      requires o == v.fds[fd].offset && o + done < |s|
      requires Snap() == Advanced(v, fd, done) && Walkable(fd, c)
      requires buf[..done] == s[o..o + done]
      modifies buf, fds
      ensures bufCount == done + Chunk(o + done, n - done, |s| - (o + done))
      ensures done < bufCount <= n && o + bufCount <= |s|
      ensures Snap() == Advanced(v, fd, bufCount)
      ensures buf[..bufCount] == s[o..o + bufCount] && buf[bufCount..] == old(buf[bufCount..])
    {
      hide Reads, Chunk, FatSeq, Advanced, Walkable;
      bufCount := ReadRound(fd, i, buf, done, n, o + done, v, l, c, s);
      JoinSlices(s, o, o + done, o + bufCount);
      assert buf[..bufCount] == buf[..done] + buf[done..bufCount];
    }

    /**
      * The cursor `index` starts over at the first block and lags behind the block being read, so it never meets
      * the end marker before the read is complete.
      */
    method ReadFrom(fd: nat, i: nat, buf: array<byte>, n: nat,
                    ghost v: Vol, ghost l: Layout, ghost c: seq<nat>, ghost s: seq<byte>)
      returns (bufCount: nat)
      requires diskOpen
      requires fat.Length1 == FAT_SIZE && OpenAt(v, fd, i) && Reads(v, l, i, c, s) && n <= buf.Length
      requires Snap() == v && Walkable(fd, c) && v.fds[fd].offset <= |s|
      modifies buf, fds
      ensures bufCount == Min(n, |s| - v.fds[fd].offset)
      ensures Snap() == Advanced(v, fd, bufCount)
      ensures buf[bufCount..] == old(buf[bufCount..])
      ensures var o := v.fds[fd].offset; buf[..bufCount] == s[o..o + bufCount]
    {
      hide Reads, Chunk, FatSeq, Advanced;
      ghost var o, k := v.fds[fd].offset, 0;
      ReadsSize(v, l, i, c, s);
      AdvancedNothing(v, fd);
      var index: nat := root[i].first;
      bufCount := 0;
      var size := root[i].size;
      while index != FAT_EOC && bufCount < n && fds[fd].offset < size
        invariant bufCount <= n && o + bufCount <= |s|
        invariant Snap() == Advanced(v, fd, bufCount) && fds[fd].offset == o + bufCount
        invariant buf[..bufCount] == s[o..o + bufCount] && buf[bufCount..] == old(buf[bufCount..])
        invariant 0 <= k <= |c| && index == At(c, k)
        invariant bufCount < n && o + bufCount < |s| ==> k <= (o + bufCount) / BLOCK_SIZE
        decreases n - bufCount
      {
        WalkOn(fd, c, v, bufCount);
        ChunkFacts(o + bufCount, n - bufCount, |s| - (o + bufCount));
        bufCount := ReadMore(fd, i, buf, bufCount, n, o, v, l, c, s);
        AdvancedFields(v, fd, bufCount);
        assert fds[fd] == Snap().fds[fd];
        assert LinkHere(c, k);
        var fatI := FatBlockFinder(index);
        var fatIndex := index % FAT_SIZE;
        index := fat[fatI, fatIndex];
        k := k + 1;
      }
      assert index == FAT_EOC ==> k == |c|;
    }

    /** The chain stays walkable while the offset moves inside the file. */
    lemma WalkOn(fd: nat, c: seq<nat>, v: Vol, m: nat)
      requires fat.Length1 == FAT_SIZE && fd < |v.fds| && Snap() == Advanced(v, fd, m)
      requires v.fds[fd].fileIndex < |v.root| && Linked(v.fat, v.root[v.fds[fd].fileIndex].first, c)
      requires (v.fds[fd].offset + m) / BLOCK_SIZE <= |c|
      ensures Walkable(fd, c)
    {
      assert fds[fd] == Snap().fds[fd];
      LinksHere(root[fds[fd].fileIndex].first, c);
    }

    method Read(fd: int, buf: array<byte>, n: nat) returns (r: int)
      requires Good() && n <= buf.Length
      modifies buf, fds
      ensures Valid(old(Meaning())) && Good()
      ensures DoRead(old(Meaning()), fd, n).0 == Meaning()
      ensures var out := DoRead(old(Meaning()), fd, n).1;
        && r == out.code
        && var m := Max(0, r);
        m <= n && buf[..m] == out.data && buf[m..] == old(buf[m..])
    {
      hide FatSeq, ReadOpen;
      AbsValid(Snap(), layout);
      var ok := FdCheck(fd);
      if ok == -1 { return -1; }
      FdAt(Snap(), layout, fd);
      r := ReadThrough(fd, buf, n);
    }

    /** A read through an open descriptor. */
    method ReadThrough(fd: nat, buf: array<byte>, n: nat) returns (r: nat)
      requires Good() && n <= buf.Length && fd < FD_MAX && fds[fd].open != 0
      modifies buf, fds
      ensures Good() && Seated(old(Meaning()), fd)
      ensures r <= n && (Meaning(), buf[..r]) == ReadOpen(old(Meaning()), fd, n)
      ensures buf[r..] == old(buf[r..])
    {
      hide FatSeq, ReadOpen;
      ghost var v, l := Snap(), layout;
      FdAt(v, l, fd);
      var i := fds[fd].fileIndex;
      WalkFacts(fd);
      ghost var s := FileOf(v, l, i).content;
      r := ReadFrom(fd, i, buf, n, v, l, l.chains[i], s);
      AdvancedRead(v, l, fd, i, n, buf[..r]);
    }

    // -------------------------------------------------------------- information

    lemma EntryAt(i: nat, y: nat)
      requires fat.Length1 == FAT_SIZE && i < fat.Length0 && y < FAT_SIZE
      ensures FatSeq(fat)[i * FAT_SIZE + y] == fat[i, y]
    {
      assert (i * FAT_SIZE + y) / FAT_SIZE == i && (i * FAT_SIZE + y) % FAT_SIZE == y;
    }

    lemma FreeFacts()
      requires Good()
      ensures fat.Length0 == sb.fatCount && 1 <= sb.dataCount <= |FatSeq(fat)|
      ensures Consistent() && Meaning().free == CountZero(FatSeq(fat), sb.dataCount)
      ensures Meaning().free + TotalBlocks(layout.chains) + 1 == sb.dataCount
    {
      BlocksConserved(Snap(), layout);
    }

    /** Free entries among the data blocks; the scan stops after as many entries as there are data blocks. */
    method FatFree() returns (fatFree: nat)
      requires Good()
      ensures fatFree == Meaning().free
      ensures fatFree + TotalBlocks(layout.chains) + 1 == sb.dataCount
    {
      hide Inv, Core, Abs, FatSeq, TotalBlocks;
      FreeFacts();
      ghost var table := FatSeq(fat);
      var n, done, i := 0, false, 0;
      fatFree := 0;
      while i < sb.fatCount && !done
        invariant 0 <= i <= sb.fatCount && n <= sb.dataCount <= |table|
        invariant fatFree == CountZero(table, n)
        invariant !done ==> n == i * FAT_SIZE && n < sb.dataCount
        invariant done ==> n == sb.dataCount
        decreases sb.fatCount - i, !done
      {
        var y := 0;
        while y < FAT_SIZE && !done
          invariant 0 <= y <= FAT_SIZE && n <= sb.dataCount
          invariant fatFree == CountZero(table, n)
          invariant !done ==> n == i * FAT_SIZE + y && n < sb.dataCount
          invariant done ==> n == sb.dataCount
          decreases FAT_SIZE - y, !done
        {
          EntryAt(i, y);
          if fat[i, y] == 0 { fatFree := fatFree + 1; }
          n := n + 1;
          if n >= sb.dataCount { done := true; } else { y := y + 1; }
        }
        if !done { i := i + 1; }
      }
    }

    /** Unused root entries. */
    method RootFree() returns (rootFree: int)
      requires Good()
      ensures rootFree == FILE_MAX - |Meaning().files|
    {
      var used := 0;
      ghost var d := DirOf(Snap(), layout);
      for i := 0 to FILE_MAX
        invariant used == CountNamed(d[..i])
      {
        assert d[..i + 1][..i] == d[..i];
        if root[i].filename[0] != 0 { used := used + 1; }
      }
      assert d[..FILE_MAX] == d;
      CountNamesExactly(d);
      rootFree := 128 - used;
    }

    /** The counts of `fs_info`; nothing without a disk. */
    method Info() returns (r: int, blocks: nat, fatFree: nat, rootFree: int)
      requires diskOpen ==> Good()
      ensures r == if diskOpen then 0 else -1
      ensures diskOpen ==>
        && blocks == disk.Length
        && fatFree == Meaning().free
        && fatFree + TotalBlocks(layout.chains) + 1 == sb.dataCount
        && rootFree == FILE_MAX - |Meaning().files|
    {
      r, blocks, fatFree, rootFree := -1, 0, 0, 0;
      if !diskOpen { return; }
      r := 0;
      blocks := 2 + sb.fatCount + sb.dataCount;
      fatFree := FatFree();
      rootFree := RootFree();
    }

    // -------------------------------------------------------------- mounting and unmounting

    /** Reads the super block; from a disk without blocks, whatever the memory held. */
    method LoadSuper()
      requires diskOpen
      modifies this`sb
      ensures disk.Length > 0 ==> sb == GetSuper(disk[0])
    {
      var buf := new byte[BLOCK_SIZE];
      var _ := BlockRead(0, buf);
      sb := GetSuper(buf[..]);
    }

    /** Reads the root directory from the block the super block names. */
    method LoadRoot()
      requires diskOpen
      modifies this`root
      ensures fresh(root) && root.Length == FILE_MAX
      ensures sb.rootIndex < disk.Length ==> root[..] == GetRoot(disk[sb.rootIndex])
    {
      root := new RootEntry[FILE_MAX];
      var buf := new byte[BLOCK_SIZE];
      var _ := BlockRead(sb.rootIndex, buf);
      var entries := GetRoot(buf[..]);
      forall i | 0 <= i < FILE_MAX { root[i] := entries[i]; }
      assert root[..] == entries;
    }

    /** Reads FAT blocks 1 to `fatCount` from the disk. */
    method LoadFatBlocks()
      requires diskOpen
      modifies this`fat
      ensures fresh(fat) && fat.Length0 == sb.fatCount && fat.Length1 == FAT_SIZE
      ensures sb.fatCount < disk.Length ==> FatSeq(fat) == LoadFat(disk[..], sb.fatCount)
    {
      var table := new u16[sb.fatCount, FAT_SIZE];
      fat := table;
      var i := 1;
      while i <= sb.fatCount
        invariant fat == table && 1 <= i <= sb.fatCount + 1
        invariant forall j, y | 0 <= j < i - 1 && j + 1 < disk.Length && 0 <= y < FAT_SIZE ::
          table[j, y] == GetFat(disk[1 + j])[y]
      {
        var buf := new byte[BLOCK_SIZE];
        var _ := BlockRead(i, buf);
        var row := GetFat(buf[..]);
        forall y | 0 <= y < FAT_SIZE { table[i - 1, y] := row[y]; }
        i := i + 1;
      }
    }

    /**
      * The super block is used before it is checked, and the descriptor table is not initialised: it holds whatever
      * its memory held. A refused disk stays open.
      */
    method Mount() returns (r: int)
      modifies this
      ensures disk == old(disk) && disk[..] == old(disk[..]) && diskOpen && layout == old(layout)
      ensures r == 0 <==>
        && !old(diskOpen)
        && disk.Length > 0
        && var b: seq<int> := disk[0];
        && b[..8] == [69, 67, 83, 49, 53, 48, 70, 83]
        && b[8] + 256 * b[9] == disk.Length
        && b[10] + 256 * b[11] == b[16] + 1
        && b[12] + 256 * b[13] == b[16] + 2
        && b[14] + 256 * b[15] + b[16] + 2 == disk.Length
      ensures old(diskOpen) ==> unchanged(this)
      ensures old(diskOpen) && old(fat.Length1) == FAT_SIZE ==> fat.Length1 == FAT_SIZE && Snap() == old(Snap())
      ensures r == 0 ==>
        && !freed && fat.Length1 == FAT_SIZE && fds.Length == FD_MAX
        && Mountable(disk[..]) && Snap() == Mounted(disk[..], fds[..], count)
    {
      if diskOpen { return -1; }
      diskOpen := true;
      freed := false;
      fds := new FileDes[FD_MAX];
      count := *;
      LoadSuper();
      LoadRoot();
      LoadFatBlocks();
      MountableBytes(disk[..]);
      if !Accepts(sb, disk.Length) { return -1; }
      r := 0;
    }

    /** Writes the FAT back into blocks 1 to `fatCount`. */
    method SaveFatBlocks(ghost v: Vol)
      requires Shape(v) && fat.Length1 == FAT_SIZE && v.sb == sb && v.fat == FatSeq(fat)
      modifies disk
      ensures forall b | 0 <= b < disk.Length ::
        disk[b] == if diskOpen && 1 <= b <= sb.fatCount then PutFat(FatRow(v, b - 1)) else old(disk[b])
    {
      hide PutFat, FatRow;
      var i := 1;
      while i <= sb.fatCount
        invariant 1 <= i <= sb.fatCount + 1
        invariant forall b | 0 <= b < disk.Length ::
          disk[b] == if diskOpen && 1 <= b < i then PutFat(FatRow(v, b - 1)) else old(disk[b])
      {
        var row := RowOf(i - 1, v);
        ghost var before := disk[..];
        var _ := BlockWrite(i, PutFat(row));
        assert forall b | 0 <= b < disk.Length :: disk[b] == disk[..][b] && old(disk[b]) == old(disk[..])[b];
        i := i + 1;
      }
    }

    method RowOf(i: nat, ghost v: Vol) returns (row: FatBlock)
      requires Shape(v) && fat.Length1 == FAT_SIZE && v.sb == sb && v.fat == FatSeq(fat) && i < sb.fatCount
      ensures row == FatRow(v, i)
    {
      var f := fat;
      row := seq(FAT_SIZE, y requires 0 <= y < FAT_SIZE == f.Length1 && i < f.Length0 reads f => f[i, y]);
      forall y | 0 <= y < FAT_SIZE ensures row[y] == FatRow(v, i)[y] {
        assert (i * FAT_SIZE + y) / FAT_SIZE == i && (i * FAT_SIZE + y) % FAT_SIZE == y;
      }
    }

    /** Writes the super block, the root directory and the FAT back. */
    method SaveMetadata()
      requires Tables()
      modifies disk
      ensures disk[..] == if diskOpen then Saved(old(Snap())) else old(disk[..])
    {
      ghost var v := Snap();
      var _ := BlockWrite(0, PutSuper(sb));
      var _ := BlockWrite(sb.rootIndex, PutRoot(root[..]));
      SaveFatBlocks(v);
      if diskOpen { assert disk[..] == Saved(v); }
    }

    /**
      * Writes the metadata back and gives the tables' memory back in any case; refuses to close the disk while a
      * descriptor is open.
      */
    method Umount() returns (r: int)
      requires Tables()
      modifies this`diskOpen, this`freed, disk
      ensures freed
      ensures disk[..] == if old(diskOpen) then Saved(old(Snap())) else old(disk[..])
      ensures r == 0 <==> old(diskOpen) && forall fd | 0 <= fd < FD_MAX :: old(Meaning()).fds[fd].None?
      ensures r == 0 || r == -1
      ensures diskOpen == (old(diskOpen) && r != 0)
    {
      ghost var v := Snap();
      forall fd | 0 <= fd < FD_MAX ensures Meaning().fds[fd].None? <==> fds[fd].open == 0 { FdAt(v, layout, fd); }
      SaveMetadata();
      freed := true;
      var i := 0;
      while i < FD_MAX
        invariant 0 <= i <= FD_MAX && forall fd | 0 <= fd < i :: fds[fd].open == 0
      {
        if fds[i].open != 0 { return -1; }
        i := i + 1;
      }
      if !diskOpen { return -1; }
      diskOpen := false;
      r := 0;
    }
  }
}
