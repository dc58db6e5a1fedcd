/** File allocation table: chains of blocks, who owns each block, and what linking and freeing do to them. */
module Fat {
  import opened FsTypes

  /**
    * The chain of blocks of each root slot, and for each allocated block the slot and position that own it.
    * Both are determined by the table itself; they are carried along so that disjointness needs no search.
    */
  datatype Layout = Layout(chains: seq<seq<nat>>, owner: map<nat, (nat, nat)>)

  /** Element `k` of a chain, with the end marker just after the last one. */
  function At(c: seq<nat>, k: nat): nat { if k < |c| then c[k] else FAT_EOC }

  /** The entry of element `k` holds the next element. */
  ghost predicate Link(fat: seq<nat>, c: seq<nat>, k: nat) {
    k < |c| && c[k] < |fat| && fat[c[k]] == At(c, k + 1)
  }

  /** Following the table from `first` visits exactly the blocks of `c` and then meets the end marker. */
  ghost predicate Linked(fat: seq<nat>, first: nat, c: seq<nat>) {
    && first == At(c, 0)
    && (forall k | 0 <= k < |c| :: c[k] < |fat| && c[k] != FAT_EOC)
    && (forall k | 0 <= k < |c| :: Link(fat, c, k))
  }

  ghost predicate InLayout(l: Layout, i: int, k: int) {
    0 <= i < |l.chains| && 0 <= k < |l.chains[i]|
  }

  /** The chains lie in 1..n-1, are disjoint and repetition-free, and cover exactly the nonzero entries. */
  ghost predicate Owned(fat: seq<nat>, n: nat, l: Layout) {
    var chains, owner := l.chains, l.owner;
    && 1 <= n <= |fat|
    && fat[0] != 0
    && (forall i, k | InLayout(l, i, k) ::
          1 <= chains[i][k] < n && chains[i][k] in owner && owner[chains[i][k]] == (i, k))
    && (forall b | b in owner :: InLayout(l, owner[b].0, owner[b].1) && chains[owner[b].0][owner[b].1] == b)
    && (forall b | 1 <= b < n :: fat[b] != 0 <==> b in owner)
  }

  /** Number of free entries among the first `n`. */
  function CountZero(fat: seq<nat>, n: nat): nat
    requires n <= |fat|
  {
    if n == 0 then 0 else CountZero(fat, n - 1) + (if fat[n - 1] == 0 then 1 else 0)
  }

  function TotalBlocks(chains: seq<seq<nat>>): nat {
    if chains == [] then 0 else TotalBlocks(chains[..|chains| - 1]) + |chains[|chains| - 1]|
  }

  // ---------------------------------------------------------------- counting

  lemma {:induction false} CountZeroUpdate(fat: seq<nat>, n: nat, b: nat, x: nat)
    requires b < n <= |fat|
    ensures CountZero(fat[b := x], n)
         == CountZero(fat, n) - (if fat[b] == 0 then 1 else 0) + (if x == 0 then 1 else 0)
    decreases n
  {
    if b < n - 1 {
      CountZeroUpdate(fat, n - 1, b, x);
    } else {
      CountZeroAgree(fat, fat[b := x], n - 1);
    }
  }

  lemma {:induction false} CountZeroAgree(f: seq<nat>, g: seq<nat>, n: nat)
    requires n <= |f| && n <= |g|
    requires forall b | 0 <= b < n :: f[b] == 0 <==> g[b] == 0
    ensures CountZero(f, n) == CountZero(g, n)
  {
    if n > 0 { CountZeroAgree(f, g, n - 1); }
  }

  lemma {:induction false} CountZeroNone(fat: seq<nat>, n: nat)
    requires n <= |fat|
    ensures CountZero(fat, n) == 0 <==> forall b | 0 <= b < n :: fat[b] != 0
  {
    if n > 0 { CountZeroNone(fat, n - 1); }
  }

  lemma {:induction false} CountZeroAll(fat: seq<nat>, n: nat)
    requires 1 <= n <= |fat| && fat[0] != 0
    requires forall b | 1 <= b < n :: fat[b] == 0
    ensures CountZero(fat, n) == n - 1
  {
    if n > 1 { CountZeroAll(fat, n - 1); }
  }

  lemma {:induction false} TotalUpdate(chains: seq<seq<nat>>, i: nat, c: seq<nat>)
    requires i < |chains|
    ensures TotalBlocks(chains[i := c]) == TotalBlocks(chains) - |chains[i]| + |c|
    decreases |chains|
  {
    var last := |chains| - 1;
    if i < last {
      assert chains[i := c][..last] == chains[..last][i := c];
      TotalUpdate(chains[..last], i, c);
    } else {
      assert chains[i := c][..last] == chains[..last];
    }
  }

  lemma {:induction false} TotalPositive(chains: seq<seq<nat>>) returns (i: nat)
    requires TotalBlocks(chains) > 0
    ensures i < |chains| && chains[i] != []
  {
    i := |chains| - 1;
    if chains[i] == [] { i := TotalPositive(chains[..i]); }
  }

  /** Conservation: free entries, blocks in chains and the reserved entry 0 add up to the number of data blocks. */
  lemma {:induction false} Conservation(fat: seq<nat>, n: nat, l: Layout)
    requires Owned(fat, n, l)
    ensures CountZero(fat, n) + TotalBlocks(l.chains) + 1 == n
    decreases TotalBlocks(l.chains)
  {
    hide CountZero, TotalBlocks;
    if TotalBlocks(l.chains) == 0 {
      forall b | 1 <= b < n ensures fat[b] == 0 {
        if b in l.owner {
          var i := l.owner[b].0;
          assert l.chains[i] != [];
          TotalUpdate(l.chains, i, []);
          assert false;
        }
      }
      CountZeroAll(fat, n);
    } else {
      var i := TotalPositive(l.chains);
      var c := l.chains[i];
      var b := c[|c| - 1];
      assert InLayout(l, i, |c| - 1);
      var l' := Layout(l.chains[i := c[..|c| - 1]], l.owner - {b});
      DropLast(fat, n, l, i);
      TotalUpdate(l.chains, i, c[..|c| - 1]);
      Conservation(fat[b := 0], n, l');
      CountZeroUpdate(fat, n, b, 0);
    }
  }

  /** Freeing the last block of one chain keeps ownership exact. */
  lemma DropLast(fat: seq<nat>, n: nat, l: Layout, i: nat)
    requires Owned(fat, n, l) && i < |l.chains| && l.chains[i] != []
    ensures var c := l.chains[i]; var b := c[|c| - 1];
      b < |fat| && Owned(fat[b := 0], n, Layout(l.chains[i := c[..|c| - 1]], l.owner - {b}))
  {
    var c := l.chains[i];
    var b := c[|c| - 1];
    assert InLayout(l, i, |c| - 1);
    var l' := Layout(l.chains[i := c[..|c| - 1]], l.owner - {b});
    forall j, k | InLayout(l', j, k)
      ensures 1 <= l'.chains[j][k] < n && l'.chains[j][k] in l'.owner && l'.owner[l'.chains[j][k]] == (j, k)
    {
      assert InLayout(l, j, k) && l'.chains[j][k] == l.chains[j][k];
    }
    forall d | d in l'.owner
      ensures InLayout(l', l'.owner[d].0, l'.owner[d].1) && l'.chains[l'.owner[d].0][l'.owner[d].1] == d
    {
      assert d in l.owner;
    }
  }

  // ---------------------------------------------------------------- linking a new block

  /** The table after block `nb` is linked behind chain `c` (in front of nothing when `c` is empty). */
  function GrowTable(fat: seq<nat>, c: seq<nat>, nb: nat): seq<nat>
    requires nb < |fat| && (c != [] ==> c[|c| - 1] < |fat|)
  {
    (if c == [] then fat else fat[c[|c| - 1] := nb])[nb := FAT_EOC]
  }

  function GrowLayout(l: Layout, i: nat, nb: nat): Layout
    requires i < |l.chains|
  {
    Layout(l.chains[i := l.chains[i] + [nb]], l.owner[nb := (i, |l.chains[i]|)])
  }

  lemma GrowOwned(fat: seq<nat>, n: nat, l: Layout, i: nat, nb: nat)
    requires Owned(fat, n, l) && i < |l.chains| && 1 <= nb < n && fat[nb] == 0
    ensures l.chains[i] != [] ==> l.chains[i][|l.chains[i]| - 1] < |fat|
    ensures Owned(GrowTable(fat, l.chains[i], nb), n, GrowLayout(l, i, nb))
    ensures CountZero(GrowTable(fat, l.chains[i], nb), n) == CountZero(fat, n) - 1
  {
    hide CountZero;
    var c := l.chains[i];
    if c != [] { assert InLayout(l, i, |c| - 1); }
    GrowOwners(fat, n, l, i, nb);
    GrowCount(fat, n, c, nb);
  }

  lemma GrowOwners(fat: seq<nat>, n: nat, l: Layout, i: nat, nb: nat)
    requires Owned(fat, n, l) && i < |l.chains| && 1 <= nb < n && fat[nb] == 0
    ensures l.chains[i] != [] ==> l.chains[i][|l.chains[i]| - 1] < |fat|
    ensures Owned(GrowTable(fat, l.chains[i], nb), n, GrowLayout(l, i, nb))
  {
    var c := l.chains[i];
    var l' := GrowLayout(l, i, nb);
    if c != [] { assert InLayout(l, i, |c| - 1); }
    forall j, k | InLayout(l', j, k)
      ensures 1 <= l'.chains[j][k] < n && l'.chains[j][k] in l'.owner && l'.owner[l'.chains[j][k]] == (j, k)
    {
      if (j, k) != (i, |c|) {
        assert InLayout(l, j, k) && l'.chains[j][k] == l.chains[j][k];
      }
    }
    forall b | b in l'.owner
      ensures InLayout(l', l'.owner[b].0, l'.owner[b].1) && l'.chains[l'.owner[b].0][l'.owner[b].1] == b
    {
      if b != nb { assert b in l.owner; }
    }
  }

  lemma GrowCount(fat: seq<nat>, n: nat, c: seq<nat>, nb: nat)
    requires nb < n <= |fat| && fat[nb] == 0
    requires c != [] ==> c[|c| - 1] < n && fat[c[|c| - 1]] != 0 && nb != 0
    ensures CountZero(GrowTable(fat, c, nb), n) == CountZero(fat, n) - 1
  {
    hide CountZero;
    if c != [] { CountZeroUpdate(fat, n, c[|c| - 1], nb); }
    CountZeroUpdate(if c == [] then fat else fat[c[|c| - 1] := nb], n, nb, FAT_EOC);
  }

  lemma GrowLinked(fat: seq<nat>, n: nat, l: Layout, i: nat, nb: nat, j: nat, first: nat)
    requires Owned(fat, n, l) && i < |l.chains| && j < |l.chains| && 1 <= nb < n < FAT_EOC + 1 && fat[nb] == 0
    requires Linked(fat, first, l.chains[j])
    requires l.chains[i] != [] ==> l.chains[i][|l.chains[i]| - 1] < |fat|
    ensures Linked(GrowTable(fat, l.chains[i], nb),
                   if j == i then At(l.chains[i] + [nb], 0) else first,
                   GrowLayout(l, i, nb).chains[j])
  {
    var c := l.chains[i];
    var fat' := GrowTable(fat, c, nb);
    var d := GrowLayout(l, i, nb).chains[j];
    if c != [] { assert InLayout(l, i, |c| - 1); }
    forall k | 0 <= k < |d|
      ensures d[k] < |fat'| && d[k] != FAT_EOC && Link(fat', d, k)
    {
      if k < |l.chains[j]| {
        assert InLayout(l, j, k);
        assert d[k] == l.chains[j][k];
        assert Link(fat, l.chains[j], k);
      }
    }
  }

  // ---------------------------------------------------------------- freeing a chain

  /** The table after the blocks of `c` have been zeroed one by one, first to last. */
  function FreeTable(fat: seq<nat>, c: seq<nat>): seq<nat>
    requires forall k | 0 <= k < |c| :: c[k] < |fat|
    ensures |FreeTable(fat, c)| == |fat|
    decreases |c|
  {
    if c == [] then fat else FreeTable(fat, c[..|c| - 1])[c[|c| - 1] := 0]
  }

  function FreeLayout(l: Layout, i: nat): Layout
    requires i < |l.chains|
  {
    Layout(l.chains[i := []], map b | b in l.owner && l.owner[b].0 != i :: l.owner[b])
  }

  lemma {:induction false} FreeTableAt(fat: seq<nat>, c: seq<nat>, b: nat)
    requires forall k | 0 <= k < |c| :: c[k] < |fat|
    requires b < |fat|
    ensures FreeTable(fat, c)[b] == if b in c then 0 else fat[b]
    decreases |c|
  {
    if c != [] {
      var m := |c| - 1;
      assert c == c[..m] + [c[m]];
      FreeTableAt(fat, c[..m], b);
    }
  }

  lemma {:induction false} FreeCount(fat: seq<nat>, n: nat, c: seq<nat>)
    requires n <= |fat|
    requires forall k | 0 <= k < |c| :: c[k] < n && fat[c[k]] != 0
    requires forall j, k | 0 <= j < k < |c| :: c[j] != c[k]
    ensures CountZero(FreeTable(fat, c), n) == CountZero(fat, n) + |c|
    decreases |c|
  {
    if c != [] {
      var m := |c| - 1;
      FreeCount(fat, n, c[..m]);
      FreeTableAt(fat, c[..m], c[m]);
      CountZeroUpdate(FreeTable(fat, c[..m]), n, c[m], 0);
    }
  }

  lemma FreeOwned(fat: seq<nat>, n: nat, l: Layout, i: nat)
    requires Owned(fat, n, l) && i < |l.chains|
    ensures forall k | 0 <= k < |l.chains[i]| :: l.chains[i][k] < |fat|
    ensures Owned(FreeTable(fat, l.chains[i]), n, FreeLayout(l, i))
    ensures CountZero(FreeTable(fat, l.chains[i]), n) == CountZero(fat, n) + |l.chains[i]|
  {
    var c := l.chains[i];
    forall k | 0 <= k < |c| ensures InLayout(l, i, k) && c[k] < n && fat[c[k]] != 0 { assert InLayout(l, i, k); }
    forall j, k | 0 <= j < k < |c| ensures c[j] != c[k] { assert InLayout(l, i, j) && InLayout(l, i, k); }
    FreeCount(fat, n, c);
    var l' := FreeLayout(l, i);
    forall j, k | InLayout(l', j, k)
      ensures 1 <= l'.chains[j][k] < n && l'.chains[j][k] in l'.owner && l'.owner[l'.chains[j][k]] == (j, k)
    {
      assert InLayout(l, j, k) && l'.chains[j][k] == l.chains[j][k];
    }
    forall b | 0 <= b < n
      ensures b == 0 ==> FreeTable(fat, c)[b] != 0
      ensures b > 0 ==> (FreeTable(fat, c)[b] != 0 <==> b in l'.owner)
    {
      FreeTableAt(fat, c, b);
      if b in c {
        var k :| 0 <= k < |c| && c[k] == b;
        assert InLayout(l, i, k);
      }
      if b in l.owner && l.owner[b].0 == i {
        assert b in c;
      }
    }
  }

  lemma FreeLinked(fat: seq<nat>, n: nat, l: Layout, i: nat, j: nat, first: nat)
    requires Owned(fat, n, l) && i < |l.chains| && j < |l.chains| && j != i
    requires Linked(fat, first, l.chains[j])
    requires forall k | 0 <= k < |l.chains[i]| :: l.chains[i][k] < |fat|
    ensures Linked(FreeTable(fat, l.chains[i]), first, FreeLayout(l, i).chains[j])
  {
    var d := l.chains[j];
    var c := l.chains[i];
    forall k | 0 <= k < |d| ensures Link(FreeTable(fat, c), d, k) {
      assert InLayout(l, j, k);
      assert Link(fat, d, k);
      FreeTableAt(fat, c, d[k]);
      if d[k] in c {
        var m :| 0 <= m < |c| && c[m] == d[k];
        assert InLayout(l, i, m);
      }
    }
  }

  // ---------------------------------------------------------------- the layout is a function of the table

  /** Two chains that follow the table from the same first block are the same chain. */
  lemma {:induction false} ChainUnique(fat: seq<nat>, first: nat, c: seq<nat>, d: seq<nat>)
    requires Linked(fat, first, c) && Linked(fat, first, d)
    ensures c == d
    decreases |c|
  {
    if c != [] && d != [] {
      var next := fat[first];
      forall k | 0 <= k < |c[1..]| ensures Link(fat, c[1..], k) { assert Link(fat, c, k + 1); }
      forall k | 0 <= k < |d[1..]| ensures Link(fat, d[1..], k) { assert Link(fat, d, k + 1); }
      assert Link(fat, c, 0) && Link(fat, d, 0);
      ChainUnique(fat, next, c[1..], d[1..]);
      assert c == [c[0]] + c[1..] && d == [d[0]] + d[1..];
    }
  }
}
