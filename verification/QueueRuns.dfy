/** Whole runs of queue operations, and the run after which the rear pointer is wrong. */
module QueueRuns {
  import opened Queue

  datatype Op = Enqueue(data: Ptr) | Dequeue | Delete(data: Ptr) | Length

  /** What an operation returns, and the item it delivers. */
  datatype Outcome = Outcome(code: int, item: Ptr)

  function Step(s: seq<Ptr>, op: Op): (seq<Ptr>, Outcome) {
    match op
    case Enqueue(x) => if x == NULL then (s, Outcome(-1, NULL)) else (s + [x], Outcome(0, NULL))
    case Dequeue => if s == [] then (s, Outcome(-1, NULL)) else (s[1..], Outcome(0, s[0]))
    case Delete(x) => (RemoveFirst(s, x), Outcome(if x != NULL && x in s then 0 else -1, NULL))
    case Length => (s, Outcome(|s|, NULL))
  }

  function Run(s: seq<Ptr>, ops: seq<Op>): (seq<Ptr>, seq<Outcome>)
    decreases |ops|
  {
    if ops == [] then (s, [])
    else
      var (t, o) := Step(s, ops[0]);
      var (u, os) := Run(t, ops[1..]);
      (u, [o] + os)
  }

  /** The operation unlinks the last of several items. */
  predicate CutsRear(s: seq<Ptr>, op: Op) {
    op.Delete? && op.data != NULL && |s| > 1 && IndexOf(s, op.data) == |s| - 1
  }

  /** Whether the rear pointer is stale after an operation, if it was before. */
  predicate StaleAfter(s: seq<Ptr>, stale: bool, op: Op) { Step(s, op).0 != [] && (stale || CutsRear(s, op)) }

  /** An item is put behind a stale rear. */
  predicate Breaks(stale: bool, op: Op) { stale && op.Enqueue? && op.data != NULL }

  /** No item of the run is put behind a stale rear. */
  predicate NeverBreaks(s: seq<Ptr>, stale: bool, ops: seq<Op>)
    decreases |ops|
  {
    ops != [] ==> !Breaks(stale, ops[0]) && NeverBreaks(Step(s, ops[0]).0, StaleAfter(s, stale, ops[0]), ops[1..])
  }

  /** The list is sound, and its rear pointer is stale or not. */
  ghost predicate Is(q: Queue, stale: bool)
    reads q, q.Repr
  {
    q.Listed() && if stale then q.Stale() else q.RearOk()
  }

  /** One operation: the list does what the sequence does, unless an item is put behind a stale rear; then it breaks. */
  method Apply(q: Queue, ghost stale: bool, op: Op) returns (o: Outcome)
    requires Is(q, stale)
    modifies q.Repr
    ensures fresh(q.Repr - old(q.Repr))
    ensures q.Listed() <==> !Breaks(stale, op)
    ensures !Breaks(stale, op) ==> Is(q, StaleAfter(old(q.Contents()), stale, op))
    ensures !Breaks(stale, op) ==> (q.Contents(), o) == Step(old(q.Contents()), op)
  {
    var code: int, item: Ptr := 0, NULL;
    match op {
      case Enqueue(x) => code := q.Enqueue(x);
      case Dequeue => code, item := q.Dequeue();
      case Delete(x) => code := q.Delete(x);
      case Length => code := q.Length();
    }
    o := Outcome(code, if code == 0 && op.Dequeue? then item else NULL);
  }

  /** Runs of the list are runs of the sequence, as long as no item is put behind a stale rear. */
  method Execute(q: Queue, ghost stale: bool, ops: seq<Op>) returns (os: seq<Outcome>)
    requires Is(q, stale) && NeverBreaks(q.Contents(), stale, ops)
    modifies q.Repr
    ensures q.Listed() && fresh(q.Repr - old(q.Repr))
    ensures (q.Contents(), os) == Run(old(q.Contents()), ops)
    decreases |ops|
  {
    if ops == [] { return []; }
    ghost var next := StaleAfter(q.Contents(), stale, ops[0]);
    var o := Apply(q, stale, ops[0]);
    var rest := Execute(q, next, ops[1..]);
    os := [o] + rest;
  }

  /** Two items in, the second one out: harmless if the first one goes too before the next comes, and fatal if not. */
  lemma StaleRun(x: Ptr, y: Ptr, z: Ptr)
    requires x != NULL && y != NULL && z != NULL && x != y
    ensures NeverBreaks([], false, [Enqueue(x), Enqueue(y), Delete(y), Dequeue, Enqueue(z)])
    ensures !NeverBreaks([], false, [Enqueue(x), Enqueue(y), Delete(y), Enqueue(z)])
  {
    assert [x] + [y] == [x, y] && [] + [x] == [x];
    assert [x, y][1..] == [y];
    RemoveFirstAt([x, y], y);
    assert RemoveFirst([x, y], y) == [x];
    var a, b, c, d, e := Enqueue(x), Enqueue(y), Delete(y), Dequeue, Enqueue(z);
    assert NeverBreaks([], false, [e]);
    assert NeverBreaks([x], true, [d, e]) by { assert [d, e][1..] == [e]; }
    assert NeverBreaks([x, y], false, [c, d, e]) by { assert [c, d, e][1..] == [d, e]; }
    assert NeverBreaks([x], false, [b, c, d, e]) by { assert [b, c, d, e][1..] == [c, d, e]; }
    assert [a, b, c, d, e][1..] == [b, c, d, e];
    assert !NeverBreaks([x], true, [e]);
    assert !NeverBreaks([x, y], false, [c, e]) by { assert [c, e][1..] == [e]; }
    assert !NeverBreaks([x], false, [b, c, e]) by { assert [b, c, e][1..] == [c, e]; }
    assert [a, b, c, e][1..] == [b, c, e];
  }

  /** Two items in, the second one deleted: what is listed is right, the rear pointer is not. */
  method StaleRear(x: Ptr, y: Ptr) returns (q: Queue)
    requires x != NULL && y != NULL && x != y
    ensures q.Listed() && q.Contents() == [x] && !q.RearOk()
  {
    q := new Queue();
    var _ := q.Enqueue(x);
    var _ := q.Enqueue(y);
    assert q.Contents() == [x, y];
    assert IndexOf([x, y], y) == 1 by { assert [x, y][1..] == [y]; }
    var _ := q.Delete(y);
    RemoveFirstAt([x, y], y);
  }
}
