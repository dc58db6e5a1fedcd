/** How the view of a volume changes when the snapshot changes the way each operation changes it. */
module VolumeSteps {
  import opened FsTypes
  import opened Wrappers
  import opened Fat
  import opened FsSpec
  import opened Directory
  import opened Volume

  // ---------------------------------------------------------------- one slot of the directory changes

  /** Slot `j` keeps its name and its file. */
  ghost predicate SlotKept(v: Vol, l: Layout, w: Vol, m: Layout, j: nat)
    requires Core(v, l) && Core(w, m) && j < FILE_MAX
  {
    && w.root[j].filename == v.root[j].filename
    && (Named(v.root[j]) && Named(w.root[j]) ==> FileOf(w, m, j) == FileOf(v, l, j))
  }

  lemma TablesKeepSlot(v: Vol, l: Layout, w: Vol, m: Layout, j: nat)
    requires Core(v, l) && Core(w, m) && j < FILE_MAX
    requires w.sb == v.sb && w.disk == v.disk && w.root[j] == v.root[j] && m.chains[j] == l.chains[j]
    ensures SlotKept(v, l, w, m, j)
  {
  }

  lemma DirUpdate(v: Vol, l: Layout, w: Vol, m: Layout, i: nat)
    requires Core(v, l) && Core(w, m) && i < FILE_MAX
    requires forall j | 0 <= j < FILE_MAX && j != i :: SlotKept(v, l, w, m, j)
    ensures Named(w.root[i]) ==> DirOf(w, m) == DirOf(v, l)[i := Some(Entry(NameOf(w.root[i]), FileOf(w, m, i)))]
    ensures !Named(w.root[i]) ==> DirOf(w, m) == DirOf(v, l)[i := None]
  {
    var d, e := DirOf(v, l), DirOf(w, m);
    var x := if Named(w.root[i]) then Some(Entry(NameOf(w.root[i]), FileOf(w, m, i))) else None;
    forall j | 0 <= j < FILE_MAX ensures e[j] == d[i := x][j] {
      if j != i { assert SlotKept(v, l, w, m, j); }
    }
    assert e == d[i := x];
  }

  /** A named slot whose file changes while every other slot is kept: the view changes at that name. */
  lemma FilesPut(v: Vol, l: Layout, w: Vol, m: Layout, i: nat)
    requires Core(v, l) && Core(w, m) && i < FILE_MAX && Named(w.root[i])
    requires Named(v.root[i]) ==> NameOf(v.root[i]) == NameOf(w.root[i])
    requires forall j | 0 <= j < FILE_MAX && j != i :: SlotKept(v, l, w, m, j)
    ensures Abs(w, m).files == Abs(v, l).files[NameOf(w.root[i]) := FileOf(w, m, i)]
  {
    DirUpdate(v, l, w, m, i);
    PutSlot(DirOf(v, l), i, NameOf(w.root[i]), FileOf(w, m, i));
  }

  lemma FilesDrop(v: Vol, l: Layout, w: Vol, m: Layout, i: nat)
    requires Core(v, l) && Core(w, m) && i < FILE_MAX && Named(v.root[i]) && !Named(w.root[i])
    requires forall j | 0 <= j < FILE_MAX && j != i :: SlotKept(v, l, w, m, j)
    ensures Abs(w, m).files == Abs(v, l).files - {NameOf(v.root[i])}
  {
    DirUpdate(v, l, w, m, i);
    DropSlot(DirOf(v, l), i);
  }

  /** The descriptor table reads the same when open descriptors refer to slots that keep their names. */
  lemma FdViewSame(v: Vol, root: seq<RootEntry>)
    requires |v.root| == |root| == FILE_MAX && FdsOk(v)
    requires forall j | 0 <= j < FILE_MAX && Named(v.root[j]) && root[j].filename != v.root[j].filename ::
      forall fd | 0 <= fd < |v.fds| && v.fds[fd].open != 0 :: v.fds[fd].fileIndex != j
    ensures FdView(root, v.fds) == FdView(v.root, v.fds)
  {
    forall fd | 0 <= fd < |v.fds| ensures HandleOf(root, v.fds[fd]) == HandleOf(v.root, v.fds[fd]) {
      assert FdOk(v, v.fds[fd]);
    }
  }

  // ---------------------------------------------------------------- creating and deleting

  function NewEntry(e: RootEntry, n: CString): RootEntry
    requires |n| < FILENAME_LEN
  {
    RootEntry(StrCpy(e.filename, n), 0, FAT_EOC, e.padding)
  }

  function ErasedEntry(e: RootEntry): RootEntry { e.(filename := e.filename[0 := 0]) }

  function Created(v: Vol, i: nat, n: CString): Vol
    requires i < |v.root| && |n| < FILENAME_LEN
  {
    v.(root := v.root[i := NewEntry(v.root[i], n)])
  }

  function Deleted(v: Vol, i: nat, c: seq<nat>): Vol
    requires i < |v.root| && forall k | 0 <= k < |c| :: c[k] < |v.fat|
  {
    v.(fat := FreeTable(v.fat, c), root := v.root[i := ErasedEntry(v.root[i])])
  }

  lemma CreatedInv(v: Vol, l: Layout, i: nat, n: CString)
    requires Inv(v, l) && i < FILE_MAX && !Named(v.root[i])
    requires ValidFilename(n) && FindRoot(v.root, n) == FILE_MAX
    ensures Inv(Created(v, i, n), l)
  {
    var w := Created(v, i, n);
    StrCpyReadsBack(v.root[i].filename, n);
    assert NameOf(w.root[i]) == n && Named(w.root[i]);
    forall j | 0 <= j < FILE_MAX ensures SlotOk(w, l, j) {
      assert SlotOk(v, l, j);
    }
    assert TightSize(|l.chains[i]|, w.root[i].size) by { assert SlotOk(v, l, i); }
    forall fd | 0 <= fd < FD_MAX ensures FdOk(w, w.fds[fd]) {
      assert FdOk(v, v.fds[fd]);
    }
  }

  lemma CreatedView(v: Vol, l: Layout, i: nat, n: CString)
    requires Inv(v, l) && i < FILE_MAX && !Named(v.root[i])
    requires ValidFilename(n) && FindRoot(v.root, n) == FILE_MAX
    ensures Inv(Created(v, i, n), l)
    ensures var a := Abs(v, l);
      Abs(Created(v, i, n), l) == View(a.files[n := AFile([], 0)], a.fds, a.free)
  {
    CreatedInv(v, l, i, n);
    var w := Created(v, i, n);
    StrCpyReadsBack(v.root[i].filename, n);
    assert FileOf(w, l, i) == AFile([], 0) by { assert SlotOk(w, l, i); assert SlotOk(v, l, i); }
    forall j | 0 <= j < FILE_MAX && j != i ensures SlotKept(v, l, w, l, j) { TablesKeepSlot(v, l, w, l, j); }
    FilesPut(v, l, w, l, i);
    FdViewSame(v, w.root);
  }

  /** A slot is free exactly when the view has fewer names than there are slots. */
  lemma RoomLeft(v: Vol, l: Layout)
    requires Core(v, l)
    ensures |Abs(v, l).files| < FILE_MAX <==> exists i :: 0 <= i < FILE_MAX && !Named(v.root[i])
  {
    var d := DirOf(v, l);
    CountNames(d);
    if i :| 0 <= i < FILE_MAX && !Named(v.root[i]) { assert d[i].None?; }
  }

  lemma CreatedSpec(v: Vol, l: Layout, i: nat, n: CString)
    requires Inv(v, l) && i < FILE_MAX && !Named(v.root[i])
    requires ValidFilename(n) && FindRoot(v.root, n) == FILE_MAX
    ensures Inv(Created(v, i, n), l)
    ensures DoCreate(Abs(v, l), n) == (Abs(Created(v, i, n), l), 0)
  {
    FindNamed(v, l, n);
    RoomLeft(v, l);
    CreatedView(v, l, i, n);
  }

  /** Creating fails for a name in use and for a full directory. */
  lemma CreateFails(v: Vol, l: Layout, n: CString)
    requires Core(v, l) && n != []
    requires FindRoot(v.root, n) < FILE_MAX || forall j | 0 <= j < FILE_MAX :: Named(v.root[j])
    ensures DoCreate(Abs(v, l), n) == (Abs(v, l), -1)
  {
    FindNamed(v, l, n);
    RoomLeft(v, l);
  }

  lemma DeletedSlot(v: Vol, l: Layout, i: nat, j: nat)
    requires Inv(v, l) && i < FILE_MAX && Named(v.root[i]) && j < FILE_MAX
    requires forall k | 0 <= k < |l.chains[i]| :: l.chains[i][k] < |v.fat|
    ensures SlotOk(Deleted(v, i, l.chains[i]), FreeLayout(l, i), j)
  {
    assert SlotOk(v, l, j);
    if j != i && Named(v.root[j]) { FreeLinked(v.fat, v.sb.dataCount, l, i, j, v.root[j].first); }
  }

  lemma DeletedShape(v: Vol, i: nat, c: seq<nat>)
    requires Shape(v) && i < FILE_MAX && forall k | 0 <= k < |c| :: c[k] < |v.fat|
    ensures Shape(Deleted(v, i, c))
  {
    var w := Deleted(v, i, c);
    forall b | 0 <= b < |w.fat| ensures w.fat[b] < 0x1_0000 { FreeTableAt(v.fat, c, b); }
    forall j | 0 <= j < FILE_MAX ensures |NameOf(w.root[j])| < FILENAME_LEN {
      if j == i { assert NameOf(w.root[i]) == []; }
    }
  }

  lemma DeletedInv(v: Vol, l: Layout, i: nat)
    requires Inv(v, l) && i < FILE_MAX && Named(v.root[i])
    requires forall fd | 0 <= fd < FD_MAX && v.fds[fd].open != 0 :: v.fds[fd].fileIndex != i
    ensures forall k | 0 <= k < |l.chains[i]| :: l.chains[i][k] < |v.fat|
    ensures Inv(Deleted(v, i, l.chains[i]), FreeLayout(l, i))
  {
    FreeOwned(v.fat, v.sb.dataCount, l, i);
    var w := Deleted(v, i, l.chains[i]);
    var m := FreeLayout(l, i);
    DeletedShape(v, i, l.chains[i]);
    forall j | 0 <= j < FILE_MAX ensures SlotOk(w, m, j) { DeletedSlot(v, l, i, j); }
    forall fd | 0 <= fd < FD_MAX ensures FdOk(w, w.fds[fd]) { assert FdOk(v, v.fds[fd]); }
    assert NamesUnique(w.root);
    assert Core(w, m);
  }

  lemma DeletedView(v: Vol, l: Layout, i: nat)
    requires Inv(v, l) && i < FILE_MAX && Named(v.root[i])
    requires forall fd | 0 <= fd < FD_MAX && v.fds[fd].open != 0 :: v.fds[fd].fileIndex != i
    ensures forall k | 0 <= k < |l.chains[i]| :: l.chains[i][k] < |v.fat|
    ensures Inv(Deleted(v, i, l.chains[i]), FreeLayout(l, i))
    ensures var a := Abs(v, l);
      Abs(Deleted(v, i, l.chains[i]), FreeLayout(l, i))
      == View(a.files - {NameOf(v.root[i])}, a.fds, a.free + |l.chains[i]|)
  {
    DeletedInv(v, l, i);
    FreeOwned(v.fat, v.sb.dataCount, l, i);
    var w := Deleted(v, i, l.chains[i]);
    var m := FreeLayout(l, i);
    forall j | 0 <= j < FILE_MAX && j != i ensures SlotKept(v, l, w, m, j) { TablesKeepSlot(v, l, w, m, j); }
    FilesDrop(v, l, w, m, i);
    FdViewSame(v, w.root);
  }

  /** Deleting a file that is open leaves a descriptor without a file: no layout makes the volume good. */
  lemma DeletedOpenBroken(v: Vol, i: nat, c: seq<nat>, fd: nat, m: Layout)
    requires Shape(v) && i < FILE_MAX && forall k | 0 <= k < |c| :: c[k] < |v.fat|
    requires fd < FD_MAX && v.fds[fd].open != 0 && v.fds[fd].fileIndex == i
    ensures !Core(Deleted(v, i, c), m)
  {
    var w := Deleted(v, i, c);
    assert !FdOk(w, w.fds[fd]);
  }

  /** A descriptor open on a name is a slot of the table that points to the file's entry. */
  lemma OpenHasSlot(v: Vol, l: Layout, i: nat)
    requires Inv(v, l) && i < FILE_MAX && Named(v.root[i]) && OpenOn(Abs(v, l), NameOf(v.root[i]))
    ensures exists fd :: 0 <= fd < FD_MAX && v.fds[fd].open != 0 && v.fds[fd].fileIndex == i
  {
    var a := Abs(v, l);
    var fd :| 0 <= fd < |a.fds| && a.fds[fd].Some? && a.fds[fd].value.name == NameOf(v.root[i]);
    FdAt(v, l, fd);
    assert v.fds[fd].fileIndex == i;
  }

  /** Both outcomes of a delete: with no descriptor open on the slot the volume stays good, with one it cannot. */
  lemma DeletedEither(v: Vol, l: Layout, i: nat)
    requires Inv(v, l) && i < FILE_MAX && Named(v.root[i])
    ensures forall k | 0 <= k < |l.chains[i]| :: l.chains[i][k] < |v.fat|
    ensures Inv(Deleted(v, i, l.chains[i]), FreeLayout(l, i)) <==> !OpenOn(Abs(v, l), NameOf(v.root[i]))
    ensures Core(Deleted(v, i, l.chains[i]), FreeLayout(l, i)) ==>
      var a := Abs(v, l);
      Abs(Deleted(v, i, l.chains[i]), FreeLayout(l, i))
      == View(a.files - {NameOf(v.root[i])}, a.fds, a.free + |l.chains[i]|)
  {
    ChainFits(v, l, i);
    var a := Abs(v, l);
    if fd :| 0 <= fd < FD_MAX && v.fds[fd].open != 0 && v.fds[fd].fileIndex == i {
      FdAt(v, l, fd);
      assert a.fds[fd].value.name == NameOf(v.root[i]);
      DeletedOpenBroken(v, i, l.chains[i], fd, FreeLayout(l, i));
    } else {
      if OpenOn(a, NameOf(v.root[i])) { OpenHasSlot(v, l, i); }
      DeletedView(v, l, i);
    }
  }

  // ---------------------------------------------------------------- descriptors

  function WithFd(v: Vol, fd: nat, d: FileDes, openCount: int): Vol
    requires fd < |v.fds|
  {
    v.(fds := v.fds[fd := d], openCount := openCount)
  }

  lemma WithFdCore(v: Vol, l: Layout, fd: nat, d: FileDes, openCount: int)
    requires Core(v, l) && fd < FD_MAX && FdOk(v, d)
    requires openCount == v.openCount - (if v.fds[fd].open != 0 then 1 else 0) + (if d.open != 0 then 1 else 0)
    ensures Core(WithFd(v, fd, d, openCount), l)
  {
    var w := WithFd(v, fd, d, openCount);
    CountOpenUpdate(v.fds, fd, d);
    forall j | 0 <= j < FILE_MAX ensures SlotOk(w, l, j) { assert SlotOk(v, l, j); }
    forall j | 0 <= j < FD_MAX ensures FdOk(w, w.fds[j]) { assert FdOk(v, v.fds[j]); }
  }

  lemma WithFdView(v: Vol, l: Layout, fd: nat, d: FileDes, openCount: int)
    requires Core(v, l) && fd < FD_MAX && FdOk(v, d)
    requires openCount == v.openCount - (if v.fds[fd].open != 0 then 1 else 0) + (if d.open != 0 then 1 else 0)
    ensures Core(WithFd(v, fd, d, openCount), l)
    ensures Inv(v, l) ==> Inv(WithFd(v, fd, d, openCount), l)
    ensures Abs(WithFd(v, fd, d, openCount), l) == Abs(v, l).(fds := Abs(v, l).fds[fd := HandleOf(v.root, d)])
  {
    WithFdCore(v, l, fd, d, openCount);
    var w := WithFd(v, fd, d, openCount);
    assert DirOf(w, l) == DirOf(v, l);
    assert FdView(w.root, w.fds) == FdView(v.root, v.fds)[fd := HandleOf(v.root, d)];
  }

  /** A descriptor of the view is open exactly when the slot is, and names the file of its root entry. */
  lemma FdAt(v: Vol, l: Layout, fd: nat)
    requires Core(v, l) && fd < FD_MAX
    ensures Abs(v, l).fds[fd] == HandleOf(v.root, v.fds[fd])
    ensures Abs(v, l).fds[fd].Some? <==> v.fds[fd].open != 0
    ensures v.fds[fd].open != 0 ==>
      var i := v.fds[fd].fileIndex;
      && i < FILE_MAX && Named(v.root[i])
      && Abs(v, l).fds[fd].value == Handle(NameOf(v.root[i]), v.fds[fd].offset)
      && NameOf(v.root[i]) in Abs(v, l).files
      && Abs(v, l).files[NameOf(v.root[i])] == FileOf(v, l, i)
      && v.fds[fd].offset <= v.root[i].size
  {
    assert FdOk(v, v.fds[fd]);
    if v.fds[fd].open != 0 { FileAt(v, l, v.fds[fd].fileIndex); }
  }

  /** The view's least closed handle is the table's least closed slot, and the count tells whether there is one. */
  lemma OpenSlots(v: Vol, l: Layout)
    requires Core(v, l)
    ensures v.openCount == FD_MAX <==> LeastClosed(Abs(v, l).fds) == FD_MAX
    ensures forall j | 0 <= j < FD_MAX && v.fds[j].open == 0 && (forall k | 0 <= k < j :: v.fds[k].open != 0) ::
      LeastClosed(Abs(v, l).fds) == j
  {
    CountOpenFull(v.fds);
    forall j | 0 <= j < FD_MAX ensures Abs(v, l).fds[j].Some? <==> v.fds[j].open != 0 { FdAt(v, l, j); }
  }

  lemma ClosedExists(v: Vol, l: Layout)
    requires Core(v, l) && LeastClosed(Abs(v, l).fds) < FD_MAX
    ensures v.fds[LeastClosed(Abs(v, l).fds)].open == 0
  {
    FdAt(v, l, LeastClosed(Abs(v, l).fds));
  }

  /** The chain of a named slot: linked from its first block, inside the table, without repetition. */
  lemma SlotChain(v: Vol, l: Layout, i: nat)
    requires Core(v, l) && i < FILE_MAX && Named(v.root[i])
    ensures Linked(v.fat, v.root[i].first, l.chains[i])
    ensures v.root[i].first == FAT_EOC <==> l.chains[i] == []
    ensures forall j, k | 0 <= j < k < |l.chains[i]| :: l.chains[i][j] != l.chains[i][k]
  {
    assert SlotOk(v, l, i);
    ChainDistinct(v, l, i);
    ChainFits(v, l, i);
  }

  /** Block counts are exact in every slot but `i`. */
  ghost predicate InvBut(v: Vol, l: Layout, i: nat) {
    var good :=
      && Core(v, l)
      && forall j | 0 <= j < FILE_MAX && j != i && Named(v.root[j]) :: TightSize(|l.chains[j]|, v.root[j].size);
    good
  }

  // ---------------------------------------------------------------- growing a file by one block

  /** The snapshot after block `nb` is linked behind the chain of slot `i`. */
  function Grown(v: Vol, l: Layout, i: nat, nb: nat): Vol
    requires i < |v.root| && i < |l.chains| && nb < |v.fat| && nb < FAT_EOC
    requires l.chains[i] != [] ==> l.chains[i][|l.chains[i]| - 1] < |v.fat| && l.chains[i][0] < FAT_EOC
  {
    v.(fat := GrowTable(v.fat, l.chains[i], nb),
       root := v.root[i := v.root[i].(first := At(l.chains[i] + [nb], 0))])
  }

  lemma LastFits(v: Vol, l: Layout, i: nat)
    requires Core(v, l) && i < FILE_MAX
    ensures 1 <= v.sb.dataCount <= |v.fat|
    ensures l.chains[i] != [] ==> l.chains[i][|l.chains[i]| - 1] < |v.fat| && l.chains[i][0] < FAT_EOC
  {
    ChainFits(v, l, i);
  }

  lemma GrownSlot(v: Vol, l: Layout, i: nat, nb: nat, j: nat)
    requires Core(v, l) && i < FILE_MAX && Named(v.root[i]) && j < FILE_MAX
    requires 1 <= nb < v.sb.dataCount && v.fat[nb] == 0
    requires l.chains[i] != [] ==> l.chains[i][|l.chains[i]| - 1] < |v.fat| && l.chains[i][0] < FAT_EOC
    ensures SlotOk(Grown(v, l, i, nb), GrowLayout(l, i, nb), j)
  {
    assert SlotOk(v, l, j);
    if Named(v.root[j]) { GrowLinked(v.fat, v.sb.dataCount, l, i, nb, j, v.root[j].first); }
  }

  lemma GrownFds(v: Vol, l: Layout, i: nat, nb: nat)
    requires Core(v, l) && i < FILE_MAX && Named(v.root[i]) && nb < v.sb.dataCount
    requires l.chains[i] != [] ==> l.chains[i][|l.chains[i]| - 1] < |v.fat| && l.chains[i][0] < FAT_EOC
    ensures FdsOk(Grown(v, l, i, nb))
  {
    var w := Grown(v, l, i, nb);
    forall fd | 0 <= fd < FD_MAX ensures FdOk(w, w.fds[fd]) { assert FdOk(v, v.fds[fd]); }
  }

  lemma GrownShape(v: Vol, l: Layout, i: nat, nb: nat)
    requires Shape(v) && i < FILE_MAX && i < |l.chains| && nb < v.sb.dataCount && nb < |v.fat|
    requires l.chains[i] != [] ==> l.chains[i][|l.chains[i]| - 1] < |v.fat| && l.chains[i][0] < FAT_EOC
    ensures Shape(Grown(v, l, i, nb))
  {
    var w := Grown(v, l, i, nb);
    assert forall j | 0 <= j < FILE_MAX :: w.root[j].filename == v.root[j].filename;
  }

  lemma GrownCore(v: Vol, l: Layout, i: nat, nb: nat)
    requires Core(v, l) && i < FILE_MAX && Named(v.root[i])
    requires 1 <= nb < v.sb.dataCount && v.fat[nb] == 0
    ensures l.chains[i] != [] ==> l.chains[i][|l.chains[i]| - 1] < |v.fat| && l.chains[i][0] < FAT_EOC
    ensures Core(Grown(v, l, i, nb), GrowLayout(l, i, nb))
  {
    LastFits(v, l, i);
    GrowOwned(v.fat, v.sb.dataCount, l, i, nb);
    var w := Grown(v, l, i, nb);
    var m := GrowLayout(l, i, nb);
    GrownFds(v, l, i, nb);
    forall j | 0 <= j < FILE_MAX ensures SlotOk(w, m, j) { GrownSlot(v, l, i, nb, j); }
    GrownShape(v, l, i, nb);
  }

  lemma GrownView(v: Vol, l: Layout, i: nat, nb: nat)
    requires Core(v, l) && i < FILE_MAX && Named(v.root[i])
    requires 1 <= nb < v.sb.dataCount && v.fat[nb] == 0
    ensures l.chains[i] != [] ==> l.chains[i][|l.chains[i]| - 1] < |v.fat| && l.chains[i][0] < FAT_EOC
    ensures Core(Grown(v, l, i, nb), GrowLayout(l, i, nb))
    ensures NameOf(v.root[i]) in Abs(v, l).files
    ensures Abs(Grown(v, l, i, nb), GrowLayout(l, i, nb)) == OneMore(Abs(v, l), NameOf(v.root[i]))
  {
    hide Core, DirOf, FileOf, FdView, CountZero;
    LastFits(v, l, i);
    GrownCore(v, l, i, nb);
    GrownFile(v, l, i, nb);
    FileAt(v, l, i);
    GrownFiles(v, l, i, nb);
    GrownRest(v, l, i, nb);
  }

  lemma GrownFiles(v: Vol, l: Layout, i: nat, nb: nat)
    requires Core(v, l) && i < FILE_MAX && Named(v.root[i])
    requires 1 <= nb < v.sb.dataCount <= |v.fat| && v.fat[nb] == 0
    requires l.chains[i] != [] ==> l.chains[i][|l.chains[i]| - 1] < |v.fat| && l.chains[i][0] < FAT_EOC
    requires Core(Grown(v, l, i, nb), GrowLayout(l, i, nb))
    ensures var w, m := Grown(v, l, i, nb), GrowLayout(l, i, nb);
      Abs(w, m).files == Abs(v, l).files[NameOf(v.root[i]) := FileOf(w, m, i)]
  {
    hide Owned, SlotOk, FileOf, Abs, GrowTable;
    var w := Grown(v, l, i, nb);
    var m := GrowLayout(l, i, nb);
    forall j | 0 <= j < FILE_MAX && j != i ensures SlotKept(v, l, w, m, j) { TablesKeepSlot(v, l, w, m, j); }
    FilesPut(v, l, w, m, i);
  }

  /** Growing leaves the descriptors alone and takes one free block. */
  lemma GrownRest(v: Vol, l: Layout, i: nat, nb: nat)
    requires Core(v, l) && i < FILE_MAX && Named(v.root[i])
    requires 1 <= nb < v.sb.dataCount <= |v.fat| && v.fat[nb] == 0
    requires l.chains[i] != [] ==> l.chains[i][|l.chains[i]| - 1] < |v.fat| && l.chains[i][0] < FAT_EOC
    requires Core(Grown(v, l, i, nb), GrowLayout(l, i, nb))
    ensures var w, m := Grown(v, l, i, nb), GrowLayout(l, i, nb);
      Abs(w, m).fds == Abs(v, l).fds && Abs(w, m).free == Abs(v, l).free - 1
  {
    hide Owned, SlotOk, FdView, CountZero, GrowTable, GrowLayout, DirOf;
    GrowOwned(v.fat, v.sb.dataCount, l, i, nb);
    FdViewSame(v, Grown(v, l, i, nb).root);
  }

  lemma GrownFile(v: Vol, l: Layout, i: nat, nb: nat)
    requires Core(v, l) && i < FILE_MAX && Named(v.root[i])
    requires 1 <= nb < v.sb.dataCount && v.fat[nb] == 0
    requires l.chains[i] != [] ==> l.chains[i][|l.chains[i]| - 1] < |v.fat| && l.chains[i][0] < FAT_EOC
    requires Core(Grown(v, l, i, nb), GrowLayout(l, i, nb))
    ensures FileOf(Grown(v, l, i, nb), GrowLayout(l, i, nb), i)
         == FileOf(v, l, i).(blocks := FileOf(v, l, i).blocks + 1)
  {
    hide GrowTable, ContentOf, ChainOnDisk, Linked;
    assert SlotOk(v, l, i);
    ChainFits(v, l, i);
    ChainFits(Grown(v, l, i, nb), GrowLayout(l, i, nb), i);
    ContentGrow(v.disk, Base(v), l.chains[i], nb, v.root[i].size);
  }

  lemma ContentGrow(disk: seq<Block>, base: nat, c: seq<nat>, nb: nat, size: nat)
    requires ChainOnDisk(disk, base, c) && ChainOnDisk(disk, base, c + [nb]) && size <= |c| * BLOCK_SIZE
    ensures ContentOf(disk, base, c + [nb], size) == ContentOf(disk, base, c, size)
  {
    var x, y := ContentOf(disk, base, c + [nb], size), ContentOf(disk, base, c, size);
    forall k | 0 <= k < size ensures x[k] == y[k] {
      assert k / BLOCK_SIZE < |c|;
    }
    assert x == y;
  }

  /** Linking a block keeps the block counts of all other slots exact. */
  lemma GrownTight(v: Vol, l: Layout, i: nat, nb: nat)
    requires Inv(v, l) && i < FILE_MAX && Named(v.root[i])
    requires 1 <= nb < v.sb.dataCount && v.fat[nb] == 0
    ensures l.chains[i] != [] ==> l.chains[i][|l.chains[i]| - 1] < |v.fat| && l.chains[i][0] < FAT_EOC
    ensures InvBut(Grown(v, l, i, nb), GrowLayout(l, i, nb), i)
    ensures l.chains[i] == [] ==> Inv(Grown(v, l, i, nb), GrowLayout(l, i, nb))
  {
    GrownCore(v, l, i, nb);
    assert SlotOk(v, l, i);
  }

  /** One attempt to allocate a block for slot `i`: it fails (0) when none is free, else links the first free one. */
  ghost predicate Allocation(v: Vol, l: Layout, i: nat, nb: nat, w: Vol, m: Layout)
    requires Inv(v, l) && i < FILE_MAX
  {
    LastFits(v, l, i);
    if nb == 0 then
      CountZero(v.fat, v.sb.dataCount) == 0 && w == v && m == l
    else
      && nb < v.sb.dataCount && v.fat[nb] == 0 && (forall b | 0 <= b < nb :: v.fat[b] != 0)
      && w == Grown(v, l, i, nb) && m == GrowLayout(l, i, nb)
  }

  lemma AllocationView(v: Vol, l: Layout, i: nat, nb: nat, w: Vol, m: Layout)
    requires Inv(v, l) && i < FILE_MAX && Named(v.root[i]) && Allocation(v, l, i, nb, w, m)
    ensures InvBut(w, m, i) && (nb == 0 || l.chains[i] == [] ==> Inv(w, m))
    ensures m.chains[i] == if nb == 0 then l.chains[i] else l.chains[i] + [nb]
    ensures nb == 0 <==> Abs(v, l).free == 0
    ensures NameOf(v.root[i]) in Abs(v, l).files
    ensures Abs(w, m) == if nb == 0 then Abs(v, l) else OneMore(Abs(v, l), NameOf(v.root[i]))
  {
    FileAt(v, l, i);
    if nb != 0 {
      GrownTight(v, l, i, nb);
      GrownView(v, l, i, nb);
      GrowOwned(v.fat, v.sb.dataCount, l, i, nb);
    }
  }

  // ---------------------------------------------------------------- storing bytes into one block of a chain

  /** A block with `t` written over it from position `p` on. */
  function Overlay(b: Block, p: nat, t: seq<byte>): Block
    requires p + |t| <= BLOCK_SIZE
  {
    b[..p] + t + b[p + |t|..]
  }

  lemma OverlayNext(b: Block, p: nat, t: seq<byte>, x: byte)
    requires p + |t| < BLOCK_SIZE
    ensures Overlay(b, p, t)[p + |t| := x] == Overlay(b, p, t + [x])
  {
  }

  lemma OverlayNothing(b: Block, p: nat, t: seq<byte>)
    requires p <= BLOCK_SIZE && t == []
    ensures Overlay(b, p, t) == b
  {
  }

  lemma StoredContent(disk: seq<Block>, base: nat, c: seq<nat>, size: nat, o: nat, t: seq<byte>)
    requires ChainOnDisk(disk, base, c) && o <= size <= |c| * BLOCK_SIZE
    requires o / BLOCK_SIZE < |c| && o % BLOCK_SIZE + |t| <= BLOCK_SIZE
    requires forall j, k | 0 <= j < k < |c| :: c[j] != c[k]
    ensures var b := base + c[o / BLOCK_SIZE];
      var disk' := disk[b := Overlay(disk[b], o % BLOCK_SIZE, t)];
      && ChainOnDisk(disk', base, c)
      && Max(size, o + |t|) <= |c| * BLOCK_SIZE
      && ContentOf(disk', base, c, Max(size, o + |t|)) == Splice(ContentOf(disk, base, c, size), o, t)
  {
    var q, p := o / BLOCK_SIZE, o % BLOCK_SIZE;
    var b := base + c[q];
    var disk' := disk[b := Overlay(disk[b], p, t)];
    var size' := Max(size, o + |t|);
    assert o + |t| <= (q + 1) * BLOCK_SIZE <= |c| * BLOCK_SIZE;
    var x := ContentOf(disk', base, c, size');
    var s := ContentOf(disk, base, c, size);
    var y := Splice(s, o, t);
    forall k | 0 <= k < size' ensures x[k] == y[k] {
      StoredByte(disk, base, c, size, o, t, k);
    }
  }

  lemma StoredByte(disk: seq<Block>, base: nat, c: seq<nat>, size: nat, o: nat, t: seq<byte>, k: nat)
    requires ChainOnDisk(disk, base, c) && o <= size <= |c| * BLOCK_SIZE
    requires o / BLOCK_SIZE < |c| && o % BLOCK_SIZE + |t| <= BLOCK_SIZE
    requires forall j, k | 0 <= j < k < |c| :: c[j] != c[k]
    requires k < Max(size, o + |t|) && k / BLOCK_SIZE < |c|
    ensures var b := base + c[o / BLOCK_SIZE];
      disk[b := Overlay(disk[b], o % BLOCK_SIZE, t)][base + c[k / BLOCK_SIZE]][k % BLOCK_SIZE]
      == if o <= k < o + |t| then t[k - o] else disk[base + c[k / BLOCK_SIZE]][k % BLOCK_SIZE]
  {
    var q, p := o / BLOCK_SIZE, o % BLOCK_SIZE;
    if k / BLOCK_SIZE != q {
      assert !(o <= k < o + |t|);
    } else {
      assert k - o == k % BLOCK_SIZE - p;
    }
  }

  /** The snapshot after `t` is stored in disk block `b`, at the offset of the file open on `fd`. */
  function StoredAt(v: Vol, fd: nat, b: nat, t: seq<byte>): Vol
    requires fd < |v.fds| && v.fds[fd].fileIndex < |v.root| && b < |v.disk|
    requires v.fds[fd].offset % BLOCK_SIZE + |t| <= BLOCK_SIZE && v.fds[fd].offset + |t| < 0x1_0000_0000
  {
    var i, o := v.fds[fd].fileIndex, v.fds[fd].offset;
    v.(disk := v.disk[b := Overlay(v.disk[b], o % BLOCK_SIZE, t)],
       root := v.root[i := v.root[i].(size := Max(v.root[i].size, o + |t|))],
       fds := v.fds[fd := v.fds[fd].(offset := o + |t|)])
  }

  /** The same with the block that holds the offset in the chain of the open file. */
  function Stored(v: Vol, l: Layout, fd: nat, t: seq<byte>): Vol
    requires Core(v, l) && fd < FD_MAX && v.fds[fd].open != 0
    requires StoreFits(v, l, fd, t)
  {
    StoredAt(v, fd, Base(v) + l.chains[v.fds[fd].fileIndex][v.fds[fd].offset / BLOCK_SIZE], t)
  }

  ghost predicate StoreFits(v: Vol, l: Layout, fd: nat, t: seq<byte>)
    requires Core(v, l) && fd < FD_MAX && v.fds[fd].open != 0
  {
    assert FdOk(v, v.fds[fd]);
    var i := v.fds[fd].fileIndex;
    var o := v.fds[fd].offset;
    && o / BLOCK_SIZE < |l.chains[i]|
    && o % BLOCK_SIZE + |t| <= BLOCK_SIZE
    && Base(v) + l.chains[i][o / BLOCK_SIZE] < |v.disk|
    && o + |t| < 0x1_0000_0000
  }

  lemma StoredSlot(v: Vol, l: Layout, fd: nat, t: seq<byte>, j: nat)
    requires Core(v, l) && fd < FD_MAX && v.fds[fd].open != 0 && StoreFits(v, l, fd, t) && j < FILE_MAX
    ensures SlotOk(Stored(v, l, fd, t), l, j)
  {
    hide Overlay;
    assert SlotOk(v, l, j);
  }

  lemma StoredCore(v: Vol, l: Layout, fd: nat, t: seq<byte>)
    requires Core(v, l) && fd < FD_MAX && v.fds[fd].open != 0 && StoreFits(v, l, fd, t)
    ensures Core(Stored(v, l, fd, t), l)
  {
    hide Overlay;
    var w := Stored(v, l, fd, t);
    assert FdOk(v, v.fds[fd]);
    CountOpenUpdate(v.fds, fd, w.fds[fd]);
    forall j | 0 <= j < FILE_MAX ensures SlotOk(w, l, j) { StoredSlot(v, l, fd, t, j); }
    forall j | 0 <= j < FD_MAX ensures FdOk(w, w.fds[j]) { assert FdOk(v, v.fds[j]); }
  }

  /** Storing into a block of one chain leaves the blocks of every other chain alone. */
  lemma StoredKeepsOther(v: Vol, l: Layout, fd: nat, t: seq<byte>, j: nat)
    requires Core(v, l) && fd < FD_MAX && v.fds[fd].open != 0 && StoreFits(v, l, fd, t)
    requires Core(Stored(v, l, fd, t), l)
    requires j < FILE_MAX && j != v.fds[fd].fileIndex
    ensures SlotKept(v, l, Stored(v, l, fd, t), l, j)
  {
    var w := Stored(v, l, fd, t);
    var i, q := v.fds[fd].fileIndex, v.fds[fd].offset / BLOCK_SIZE;
    assert FdOk(v, v.fds[fd]);
    if Named(v.root[j]) {
      assert SlotOk(v, l, j) && SlotOk(w, l, j);
      var c := l.chains[j];
      forall k | 0 <= k < |c| ensures w.disk[Base(v) + c[k]] == v.disk[Base(v) + c[k]] {
        assert InLayout(l, i, q) && InLayout(l, j, k);
        BlocksDiffer(v, l, i, q, j, k);
      }
      assert FileOf(w, l, j).content == FileOf(v, l, j).content;
    }
  }

  lemma ChainDistinct(v: Vol, l: Layout, i: nat)
    requires Core(v, l) && i < FILE_MAX
    ensures forall j, k | 0 <= j < k < |l.chains[i]| :: l.chains[i][j] != l.chains[i][k]
  {
    forall j, k | 0 <= j < k < |l.chains[i]| ensures l.chains[i][j] != l.chains[i][k] {
      assert InLayout(l, i, j) && InLayout(l, i, k);
    }
  }

  /** The facts about an open file that a store relies on. */
  ghost predicate Storable(v: Vol, l: Layout, i: nat, o: nat)
    requires i < |v.root| && i < |l.chains|
  {
    && Named(v.root[i])
    && o <= v.root[i].size <= |l.chains[i]| * BLOCK_SIZE
    && ChainOnDisk(v.disk, Base(v), l.chains[i])
    && (forall j, k | 0 <= j < k < |l.chains[i]| :: l.chains[i][j] != l.chains[i][k])
  }

  lemma OpenStorable(v: Vol, l: Layout, fd: nat)
    requires Core(v, l) && fd < FD_MAX && v.fds[fd].open != 0
    ensures v.fds[fd].fileIndex < FILE_MAX && Storable(v, l, v.fds[fd].fileIndex, v.fds[fd].offset)
  {
    var i := v.fds[fd].fileIndex;
    FdAt(v, l, fd);
    ChainFits(v, l, i);
    ChainDistinct(v, l, i);
    assert SlotOk(v, l, i);
  }

  /** The stored file is the old one with `t` spliced in at the offset. */
  lemma StoredFile(v: Vol, l: Layout, fd: nat, t: seq<byte>, w: Vol, i: nat)
    requires Core(v, l) && fd < FD_MAX && v.fds[fd].open != 0 && StoreFits(v, l, fd, t)
    requires w == Stored(v, l, fd, t) && Core(w, l) && i == v.fds[fd].fileIndex < FILE_MAX
    requires Storable(v, l, i, v.fds[fd].offset)
    ensures Named(w.root[i])
    ensures FileOf(w, l, i) == AFile(Splice(FileOf(v, l, i).content, v.fds[fd].offset, t), |l.chains[i]|)
  {
    hide Overlay, Splice;
    StoredFields(v, l, fd, t, w, i);
    ChainFits(w, l, i);
    assert SlotOk(w, l, i);
    StoredBytes(v.disk, w.disk, Base(v), l.chains[i], v.root[i].size, v.fds[fd].offset, t, w.root[i].size);
  }

  /** `StoredContent` with the new disk and size given by name. */
  lemma StoredBytes(disk: seq<Block>, disk': seq<Block>, base: nat, c: seq<nat>, size: nat, o: nat, t: seq<byte>,
                    size': nat)
    requires ChainOnDisk(disk, base, c) && ChainOnDisk(disk', base, c) && o <= size <= |c| * BLOCK_SIZE
    requires o / BLOCK_SIZE < |c| && o % BLOCK_SIZE + |t| <= BLOCK_SIZE
    requires forall j, k | 0 <= j < k < |c| :: c[j] != c[k]
    requires disk' == disk[base + c[o / BLOCK_SIZE] := Overlay(disk[base + c[o / BLOCK_SIZE]], o % BLOCK_SIZE, t)]
    requires size' == Max(size, o + |t|) <= |c| * BLOCK_SIZE
    ensures ContentOf(disk', base, c, size') == Splice(ContentOf(disk, base, c, size), o, t)
  {
    StoredContent(disk, base, c, size, o, t);
  }

  lemma StoredFields(v: Vol, l: Layout, fd: nat, t: seq<byte>, w: Vol, i: nat)
    requires Core(v, l) && fd < FD_MAX && v.fds[fd].open != 0 && StoreFits(v, l, fd, t)
    requires w == Stored(v, l, fd, t) && i == v.fds[fd].fileIndex < FILE_MAX
    ensures w.sb == v.sb && w.root[i].size == Max(v.root[i].size, v.fds[fd].offset + |t|)
    ensures w.root[i].filename == v.root[i].filename
    ensures var b := Base(v) + l.chains[i][v.fds[fd].offset / BLOCK_SIZE];
      w.disk == v.disk[b := Overlay(v.disk[b], v.fds[fd].offset % BLOCK_SIZE, t)]
  {
  }

  lemma StoredView(v: Vol, l: Layout, fd: nat, t: seq<byte>)
    requires Core(v, l) && fd < FD_MAX && v.fds[fd].open != 0 && StoreFits(v, l, fd, t)
    ensures Core(Stored(v, l, fd, t), l)
    ensures Seated(Abs(v, l), fd)
    ensures Abs(Stored(v, l, fd, t), l) == Progress(Abs(v, l), fd, t, |l.chains[v.fds[fd].fileIndex]|)
  {
    hide Overlay, Splice;
    StoredCore(v, l, fd, t);
    FdAt(v, l, fd);
    var w := Stored(v, l, fd, t);
    var i := v.fds[fd].fileIndex;
    OpenStorable(v, l, fd);
    StoredFile(v, l, fd, t, w, i);
    forall j | 0 <= j < FILE_MAX && j != i ensures SlotKept(v, l, w, l, j) { StoredKeepsOther(v, l, fd, t, j); }
    FilesPut(v, l, w, l, i);
    assert FdView(w.root, w.fds) == FdView(v.root, v.fds)[fd := HandleOf(w.root, w.fds[fd])] by {
      FdViewSame(v, w.root);
    }
  }

  /** A store into the last block, or into any block of a file that filled its blocks exactly, restores exactness. */
  lemma StoredTight(v: Vol, l: Layout, fd: nat, t: seq<byte>)
    requires Core(v, l) && fd < FD_MAX && v.fds[fd].open != 0 && StoreFits(v, l, fd, t) && t != []
    requires InvBut(v, l, v.fds[fd].fileIndex)
    requires var i := v.fds[fd].fileIndex;
      && i < FILE_MAX
      && (v.fds[fd].offset / BLOCK_SIZE == |l.chains[i]| - 1 || TightSize(|l.chains[i]|, v.root[i].size))
    ensures Inv(Stored(v, l, fd, t), l)
  {
    hide Overlay;
    StoredCore(v, l, fd, t);
    var i, o := v.fds[fd].fileIndex, v.fds[fd].offset;
    assert SlotOk(v, l, i);
    TightAfter(|l.chains[i]|, v.root[i].size, o, |t|);
  }

  lemma TightAfter(blocks: nat, size: nat, o: nat, m: nat)
    requires o <= size <= blocks * BLOCK_SIZE && m > 0 && o / BLOCK_SIZE < blocks && o % BLOCK_SIZE + m <= BLOCK_SIZE
    requires o / BLOCK_SIZE == blocks - 1 || TightSize(blocks, size)
    ensures TightSize(blocks, Max(size, o + m))
  {
  }

  // ---------------------------------------------------------------- reading

  predicate OpenAt(v: Vol, fd: nat, i: nat) {
    fd < |v.fds| && v.fds[fd].open != 0 && v.fds[fd].fileIndex == i < |v.root|
  }

  /** The snapshot after `m` bytes have been read through `fd`: only its offset has moved. */
  function Advanced(v: Vol, fd: nat, m: nat): Vol
    requires fd < |v.fds|
  {
    v.(fds := v.fds[fd := v.fds[fd].(offset := v.fds[fd].offset + m)])
  }

  lemma AdvancedFields(v: Vol, fd: nat, m: nat)
    requires fd < |v.fds|
    ensures Advanced(v, fd, m).(fds := v.fds) == v && |Advanced(v, fd, m).fds| == |v.fds|
    ensures Advanced(v, fd, m).fds[fd] == v.fds[fd].(offset := v.fds[fd].offset + m)
  {
  }

  lemma AdvancedNothing(v: Vol, fd: nat)
    requires fd < |v.fds|
    ensures Advanced(v, fd, 0) == v
  {
    assert v.fds[fd := v.fds[fd]] == v.fds;
  }

  lemma AdvancedTwice(v: Vol, fd: nat, k: nat, m: nat)
    requires fd < |v.fds|
    ensures Advanced(Advanced(v, fd, k), fd, m) == Advanced(v, fd, k + m)
  {
    var d := v.fds[fd];
    assert v.fds[fd := d.(offset := d.offset + k)][fd := d.(offset := d.offset + k + m)]
        == v.fds[fd := d.(offset := d.offset + (k + m))];
  }

  lemma AdvancedView(v: Vol, l: Layout, fd: nat, m: nat)
    requires Inv(v, l) && fd < FD_MAX && v.fds[fd].open != 0
    requires v.fds[fd].fileIndex < FILE_MAX && v.fds[fd].offset + m <= v.root[v.fds[fd].fileIndex].size
    ensures Inv(Advanced(v, fd, m), l) && Seated(Abs(v, l), fd)
    ensures Abs(Advanced(v, fd, m), l)
         == var a := Abs(v, l);
            a.(fds := a.fds[fd := Some(Handle(a.fds[fd].value.name, a.fds[fd].value.offset + m))])
  {
    FdAt(v, l, fd);
    var d := v.fds[fd].(offset := v.fds[fd].offset + m);
    WithFdView(v, l, fd, d, v.openCount);
    assert Advanced(v, fd, m) == WithFd(v, fd, d, v.openCount);
  }

  /** Delivering the bytes from the offset on and advancing it is the specified read. */
  lemma AdvancedRead(v: Vol, l: Layout, fd: nat, i: nat, n: nat, bytes: seq<byte>)
    requires Inv(v, l) && fd < FD_MAX && OpenAt(v, fd, i) && Named(v.root[i])
    requires var s, o := FileOf(v, l, i).content, v.fds[fd].offset;
      o <= |s| && |bytes| == Min(n, |s| - o) && bytes == s[o..o + |bytes|]
    ensures Inv(Advanced(v, fd, |bytes|), l) && Seated(Abs(v, l), fd)
    ensures ReadOpen(Abs(v, l), fd, n) == (Abs(Advanced(v, fd, |bytes|), l), bytes)
  {
    FdAt(v, l, fd);
    AdvancedView(v, l, fd, |bytes|);
  }

  /** Slot `i` has chain `c` and content `s`. */
  ghost predicate Reads(v: Vol, l: Layout, i: nat, c: seq<nat>, s: seq<byte>) {
    && Core(v, l) && i < FILE_MAX && Named(v.root[i])
    && c == l.chains[i] && s == FileOf(v, l, i).content
  }

  lemma ReadsSize(v: Vol, l: Layout, i: nat, c: seq<nat>, s: seq<byte>)
    requires Reads(v, l, i, c, s)
    ensures i < |v.root| && v.root[i].size == |s| <= |c| * BLOCK_SIZE
    ensures Linked(v.fat, v.root[i].first, c)
  {
    SlotChain(v, l, i);
    assert SlotOk(v, l, i);
  }

  /** A read inside one block delivers the matching slice of the file. */
  lemma ReadsSlice(v: Vol, l: Layout, i: nat, c: seq<nat>, s: seq<byte>, o: nat, m: nat)
    requires Reads(v, l, i, c, s)
    requires o < |s| && o % BLOCK_SIZE + m <= BLOCK_SIZE && o + m <= |s|
    ensures i < |v.root| && v.root[i].size == |s|
    ensures o / BLOCK_SIZE < |c| && Base(v) + c[o / BLOCK_SIZE] < |v.disk|
    ensures v.disk[Base(v) + c[o / BLOCK_SIZE]][o % BLOCK_SIZE..o % BLOCK_SIZE + m] == s[o..o + m]
  {
    assert SlotOk(v, l, i);
    ChainFits(v, l, i);
    ContentSlice(v.disk, Base(v), c, v.root[i].size, o, m);
  }

  lemma ContentSlice(disk: seq<Block>, base: nat, c: seq<nat>, size: nat, o: nat, m: nat)
    requires ChainOnDisk(disk, base, c) && size <= |c| * BLOCK_SIZE
    requires o < size && o % BLOCK_SIZE + m <= BLOCK_SIZE && o + m <= size
    ensures o / BLOCK_SIZE < |c|
    ensures disk[base + c[o / BLOCK_SIZE]][o % BLOCK_SIZE..o % BLOCK_SIZE + m]
         == ContentOf(disk, base, c, size)[o..o + m]
  {
    var b := disk[base + c[o / BLOCK_SIZE]];
    var p := o % BLOCK_SIZE;
    var s := ContentOf(disk, base, c, size);
    var x, y := b[p..p + m], s[o..o + m];
    forall k | 0 <= k < m ensures x[k] == y[k] {
      assert (o + k) / BLOCK_SIZE == o / BLOCK_SIZE && (o + k) % BLOCK_SIZE == p + k;
    }
    assert x == y;
  }
}
