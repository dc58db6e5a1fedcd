/** The rounds of a write on snapshots: each links a block if the offset has run off the chain, then fills it. */
module VolumeWrite {
  import opened FsTypes
  import opened Fat
  import opened FsSpec
  import opened Volume
  import opened VolumeSteps

  /** `index` is the block of chain `c` at offset `o`; at the end of the chain, the entry is that of its last block. */
  predicate AtCursor(o: nat, c: seq<nat>, index: nat, fatI: nat, fatIndex: nat) {
    && c != []
    && o / BLOCK_SIZE <= |c|
    && index == At(c, o / BLOCK_SIZE)
    && (o / BLOCK_SIZE == |c| ==> fatI == c[|c| - 1] / FAT_SIZE && fatIndex == c[|c| - 1] % FAT_SIZE)
  }

  /** Slot `i` is open on `fd` and has at least one block. */
  ghost predicate OpenSlot(v: Vol, l: Layout, fd: nat, i: nat)
    requires Core(v, l)
  {
    fd < FD_MAX && v.fds[fd].open != 0 && v.fds[fd].fileIndex == i < FILE_MAX && l.chains[i] != []
  }

  /** Bytes `t` have been written through `fd` since view `a`. */
  ghost predicate Writing(a: View, v: Vol, l: Layout, fd: nat, i: nat, t: seq<byte>) {
    var ok := Inv(v, l) && OpenSlot(v, l, fd, i) && Seated(a, fd) && Abs(v, l) == Progress(a, fd, t, |l.chains[i]|);
    ok
  }

  /** The same with block `nb` of the chain found, or just linked, at the offset. */
  ghost predicate Ready(a: View, v: Vol, l: Layout, fd: nat, i: nat, t: seq<byte>, nb: nat) {
    && InvBut(v, l, i) && OpenSlot(v, l, fd, i) && Seated(a, fd)
    && Abs(v, l) == Progress(a, fd, t, |l.chains[i]|)
    && var o, c := v.fds[fd].offset, l.chains[i];
    && o / BLOCK_SIZE < |c| && nb == c[o / BLOCK_SIZE]
    && (o / BLOCK_SIZE == |c| - 1 || TightSize(|c|, v.root[i].size))
  }

  lemma WritingFacts(a: View, v: Vol, l: Layout, fd: nat, i: nat, t: seq<byte>)
    requires Writing(a, v, l, fd, i, t)
    ensures v.fds[fd].offset == a.fds[fd].value.offset + |t|
    ensures Named(v.root[i]) && NameOf(v.root[i]) == a.fds[fd].value.name
    ensures v.fds[fd].offset <= v.root[i].size <= |l.chains[i]| * BLOCK_SIZE
    ensures TightSize(|l.chains[i]|, v.root[i].size)
  {
    FdAt(v, l, fd);
    assert SlotOk(v, l, i);
  }

  /** The effect of looking for a block at the offset, allocating one when the chain has ended. */
  ghost predicate Extended(v: Vol, l: Layout, i: nat, at: nat, nb: nat, w: Vol, m: Layout)
    requires Inv(v, l) && i < FILE_MAX
  {
    if at == FAT_EOC then Allocation(v, l, i, nb, w, m) else nb == at && w == v && m == l
  }

  lemma NotExtended(a: View, v: Vol, l: Layout, fd: nat, i: nat, t: seq<byte>, at: nat, nb: nat, w: Vol, m: Layout)
    requires Writing(a, v, l, fd, i, t)
    requires v.fds[fd].offset / BLOCK_SIZE <= |l.chains[i]| && at == At(l.chains[i], v.fds[fd].offset / BLOCK_SIZE)
    requires Extended(v, l, i, at, nb, w, m) && nb == 0
    ensures w == v && m == l && Abs(v, l).free == 0 && v.fds[fd].offset == |l.chains[i]| * BLOCK_SIZE
  {
    WritingFacts(a, v, l, fd, i, t);
    ChainFits(v, l, i);
  }

  lemma ExtendedReady(a: View, v: Vol, l: Layout, fd: nat, i: nat, t: seq<byte>, at: nat, nb: nat, w: Vol, m: Layout)
    requires Writing(a, v, l, fd, i, t)
    requires v.fds[fd].offset / BLOCK_SIZE <= |l.chains[i]| && at == At(l.chains[i], v.fds[fd].offset / BLOCK_SIZE)
    requires Extended(v, l, i, at, nb, w, m) && nb != 0
    ensures Ready(a, w, m, fd, i, t, nb)
    ensures w.fds == v.fds && w.sb == v.sb
  {
    hide Splice, GrowTable, GrowLayout;
    WritingFacts(a, v, l, fd, i, t);
    ChainFits(v, l, i);
    if at == FAT_EOC {
      AllocationView(v, l, i, nb, w, m);
      ProgressGrow(a, fd, t, |l.chains[i]|);
    }
  }

  /** What the byte copy relies on. */
  lemma ReadyFacts(a: View, v: Vol, l: Layout, fd: nat, i: nat, t: seq<byte>, nb: nat)
    requires Ready(a, v, l, fd, i, t, nb)
    ensures v.fds[fd].offset <= v.root[i].size < 0x8000_0000
    ensures |v.fds| == FD_MAX && |v.root| == FILE_MAX
    ensures Base(v) + nb < |v.disk|
    ensures nb < |v.fat| && v.fat[nb] == At(l.chains[i], v.fds[fd].offset / BLOCK_SIZE + 1) != 0
  {
    FdAt(v, l, fd);
    MachineBounds(v, l, i);
    ChainFits(v, l, i);
    SlotChain(v, l, i);
    assert Link(v.fat, l.chains[i], v.fds[fd].offset / BLOCK_SIZE);
  }

  /** Filling the block with `u` continues the write. */
  lemma StoredWriting(a: View, v: Vol, l: Layout, fd: nat, i: nat, t: seq<byte>, nb: nat, u: seq<byte>)
    requires Ready(a, v, l, fd, i, t, nb) && u != []
    requires v.fds[fd].offset % BLOCK_SIZE + |u| <= BLOCK_SIZE && v.fds[fd].offset + |u| < 0x1_0000_0000
    requires Base(v) + nb < |v.disk|
    ensures Writing(a, StoredAt(v, fd, Base(v) + nb, u), l, fd, i, t + u)
  {
    hide Overlay, Splice, Owned, SlotOk, Shape, FdsOk, NamesUnique, StoredAt, Progress, Abs;
    ReadyFits(a, v, l, fd, i, t, nb, u);
    StoredView(v, l, fd, u);
    StoredTight(v, l, fd, u);
    ProgressStore(a, fd, t, u, |l.chains[i]|);
    StoredOpen(v, fd, Base(v) + nb, u);
  }

  lemma ReadyFits(a: View, v: Vol, l: Layout, fd: nat, i: nat, t: seq<byte>, nb: nat, u: seq<byte>)
    requires Ready(a, v, l, fd, i, t, nb)
    requires v.fds[fd].offset % BLOCK_SIZE + |u| <= BLOCK_SIZE && v.fds[fd].offset + |u| < 0x1_0000_0000
    requires Base(v) + nb < |v.disk|
    ensures Core(v, l) && StoreFits(v, l, fd, u) && |v.fds| == FD_MAX && |v.root| == FILE_MAX
  {
  }

  lemma StoredOpen(v: Vol, fd: nat, b: nat, u: seq<byte>)
    requires fd < |v.fds| && v.fds[fd].fileIndex < |v.root| && b < |v.disk|
    requires v.fds[fd].offset % BLOCK_SIZE + |u| <= BLOCK_SIZE && v.fds[fd].offset + |u| < 0x1_0000_0000
    ensures |StoredAt(v, fd, b, u).fds| == |v.fds|
    ensures StoredAt(v, fd, b, u).fds[fd] == v.fds[fd].(offset := v.fds[fd].offset + |u|)
  {
  }

  /** When `u` fills the block to its end, the cursor moves to the next element, remembering the entry it came from. */
  lemma NextCursor(a: View, v: Vol, l: Layout, fd: nat, i: nat, t: seq<byte>, nb: nat, u: seq<byte>)
    requires Ready(a, v, l, fd, i, t, nb)
    requires v.fds[fd].offset % BLOCK_SIZE + |u| == BLOCK_SIZE && v.fds[fd].offset + |u| < 0x1_0000_0000
    requires Base(v) + nb < |v.disk| && nb < |v.fat|
    ensures AtCursor(StoredAt(v, fd, Base(v) + nb, u).fds[fd].offset, l.chains[i],
                     v.fat[nb], nb / FAT_SIZE, nb % FAT_SIZE)
  {
    hide Overlay, Splice;
    ReadyFacts(a, v, l, fd, i, t, nb);
    assert (v.fds[fd].offset + |u|) / BLOCK_SIZE == v.fds[fd].offset / BLOCK_SIZE + 1;
  }

  /** A write that has run to its end has the specified effect. */
  lemma WritingDone(a: View, v: Vol, l: Layout, fd: nat, i: nat, buf: seq<byte>, done: nat, n: nat)
    requires Valid(a) && done <= n <= |buf| && Writing(a, v, l, fd, i, buf[..done])
    requires done < n ==> Abs(v, l).free == 0 && v.fds[fd].offset == |l.chains[i]| * BLOCK_SIZE
    ensures DoWrite(a, fd, buf[..n]) == (Abs(v, l), done)
  {
    assert buf[..n][..done] == buf[..done];
    AbsValid(v, l);
    WritingFacts(a, v, l, fd, i, buf[..done]);
    ProgressDone(a, fd, buf[..n], done, |l.chains[i]|);
  }

  /** A write to an empty file starts by giving it a block, even when nothing is to be written. */
  lemma FirstWriting(a: View, v: Vol, l: Layout, fd: nat, i: nat, nb: nat, w: Vol, m: Layout)
    requires Inv(v, l) && a == Abs(v, l) && fd < FD_MAX && v.fds[fd].open != 0 && i == v.fds[fd].fileIndex < FILE_MAX
    requires if l.chains[i] == [] then Allocation(v, l, i, nb, w, m) else nb == l.chains[i][0] && w == v && m == l
    ensures nb != 0 ==> Writing(a, w, m, fd, i, []) && w.fds == v.fds
    ensures nb == 0 ==> Seated(a, fd) && w == v && m == l && a.free == 0 && a == Progress(a, fd, [], 0)
  {
    FdAt(v, l, fd);
    ProgressStart(a, fd);
    if l.chains[i] == [] {
      FirstAllocated(a, v, l, fd, i, nb, w, m);
    } else {
      ChainFits(v, l, i);
    }
  }

  lemma FirstAllocated(a: View, v: Vol, l: Layout, fd: nat, i: nat, nb: nat, w: Vol, m: Layout)
    requires Inv(v, l) && a == Abs(v, l) && fd < FD_MAX && v.fds[fd].open != 0 && i == v.fds[fd].fileIndex < FILE_MAX
    requires Seated(a, fd) && Named(v.root[i]) && a.fds[fd].value.name == NameOf(v.root[i])
    requires l.chains[i] == [] && Allocation(v, l, i, nb, w, m) && Progress(a, fd, [], 0) == a
    ensures nb != 0 ==> Writing(a, w, m, fd, i, []) && w.fds == v.fds
    ensures nb == 0 ==> w == v && m == l && a.free == 0
  {
    hide Splice, GrowTable, GrowLayout, CountZero, Owned, Shape, Core;
    AllocationView(v, l, i, nb, w, m);
    ProgressGrow(a, fd, [], 0);
  }
}
