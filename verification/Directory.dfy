/** A directory with numbered slots and distinct names, read as a map from names to files. */
module Directory {
  import opened FsTypes
  import opened Wrappers
  import opened FsSpec

  datatype Entry = Entry(name: CString, file: AFile)

  type Dir = seq<Option<Entry>>

  ghost predicate Unique(d: Dir) {
    forall i, j | 0 <= i < j < |d| && d[i].Some? && d[j].Some? :: d[i].value.name != d[j].value.name
  }

  function ToMap(d: Dir): map<CString, AFile> {
    if d == [] then map[]
    else
      var m := ToMap(d[..|d| - 1]);
      match d[|d| - 1]
      case None => m
      case Some(Entry(n, f)) => m[n := f]
  }

  lemma {:induction false} ToMapAt(d: Dir, i: nat)
    requires Unique(d) && i < |d| && d[i].Some?
    ensures d[i].value.name in ToMap(d) && ToMap(d)[d[i].value.name] == d[i].value.file
  {
    var k := |d| - 1;
    if i < k {
      assert d[..k][i] == d[i];
      ToMapAt(d[..k], i);
    }
  }

  lemma {:induction false} ToMapHas(d: Dir, n: CString)
    ensures n in ToMap(d) <==> exists i :: 0 <= i < |d| && d[i].Some? && d[i].value.name == n
  {
    if d != [] {
      var k := |d| - 1;
      ToMapHas(d[..k], n);
      if n in ToMap(d[..k]) {
        var i :| 0 <= i < k && d[..k][i].Some? && d[..k][i].value.name == n;
        assert d[i] == d[..k][i];
      }
      if i :| 0 <= i < |d| && d[i].Some? && d[i].value.name == n {
        if i < k { assert d[..k][i] == d[i]; }
      }
    }
  }

  /** Filling a slot, or replacing the file in it, updates the map at that name. */
  lemma PutSlot(d: Dir, i: nat, n: CString, f: AFile)
    requires i < |d| && Unique(d) && Unique(d[i := Some(Entry(n, f))])
    requires d[i].Some? ==> d[i].value.name == n
    ensures ToMap(d[i := Some(Entry(n, f))]) == ToMap(d)[n := f]
  {
    var e := d[i := Some(Entry(n, f))];
    var x, y := ToMap(e), ToMap(d)[n := f];
    forall m ensures m in x <==> m in y {
      ToMapHas(d, m);
      ToMapHas(e, m);
      if m != n && m in ToMap(d) {
        var j :| 0 <= j < |d| && d[j].Some? && d[j].value.name == m;
        assert e[j] == d[j];
      }
      if m != n && m in x {
        var j :| 0 <= j < |e| && e[j].Some? && e[j].value.name == m;
        assert e[j] == d[j];
      }
      assert e[i].value.name == n;
    }
    forall m | m in x ensures x[m] == y[m] {
      ToMapHas(e, m);
      var j :| 0 <= j < |e| && e[j].Some? && e[j].value.name == m;
      ToMapAt(e, j);
      if j != i {
        assert e[j] == d[j];
        ToMapAt(d, j);
        assert m != n;
      }
    }
  }

  /** Emptying a slot removes its name from the map. */
  lemma DropSlot(d: Dir, i: nat)
    requires i < |d| && Unique(d) && d[i].Some?
    ensures ToMap(d[i := None]) == ToMap(d) - {d[i].value.name}
  {
    var e := d[i := None];
    var n := d[i].value.name;
    var x, y := ToMap(e), ToMap(d) - {n};
    forall m ensures m in x <==> m in y {
      ToMapHas(d, m);
      ToMapHas(e, m);
      if m in x {
        var j :| 0 <= j < |e| && e[j].Some? && e[j].value.name == m;
        assert e[j] == d[j] && j != i;
      }
      if m in y {
        var j :| 0 <= j < |d| && d[j].Some? && d[j].value.name == m;
        assert e[j] == d[j];
      }
    }
    forall m | m in x ensures x[m] == y[m] {
      ToMapHas(e, m);
      var j :| 0 <= j < |e| && e[j].Some? && e[j].value.name == m;
      ToMapAt(e, j);
      assert e[j] == d[j];
      ToMapAt(d, j);
    }
  }

  function CountNamed(d: Dir): nat {
    if d == [] then 0 else CountNamed(d[..|d| - 1]) + (if d[|d| - 1].Some? then 1 else 0)
  }

  /** The map has as many names as the directory has named slots. */
  lemma {:induction false} CountNamesExactly(d: Dir)
    requires Unique(d)
    ensures |ToMap(d)| == CountNamed(d)
  {
    if d != [] {
      var k := |d| - 1;
      CountNamesExactly(d[..k]);
      if d[k].Some? {
        var n := d[k].value.name;
        ToMapHas(d[..k], n);
        assert n !in ToMap(d[..k]);
      }
    }
  }

  /** The directory is full exactly when the map has as many names as there are slots. */
  lemma CountNames(d: Dir)
    requires Unique(d)
    ensures |ToMap(d)| <= |d|
    ensures |ToMap(d)| == |d| <==> forall i | 0 <= i < |d| :: d[i].Some?
  {
    CountNamesExactly(d);
    CountNamedFull(d);
  }

  lemma {:induction false} CountNamedFull(d: Dir)
    ensures CountNamed(d) <= |d|
    ensures CountNamed(d) == |d| <==> forall i | 0 <= i < |d| :: d[i].Some?
  {
    if d != [] {
      var k := |d| - 1;
      CountNamedFull(d[..k]);
      assert forall i | 0 <= i < k :: d[..k][i] == d[i];
    }
  }
}
