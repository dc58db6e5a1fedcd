/** The singly linked FIFO queue of the thread library, updated in place, as a sequence of pointers. */
module Queue {
  /** A `void *`: an address, where 0 is NULL. */
  type Ptr = nat

  const NULL: Ptr := 0

  /** `s` without its first `x`. */
  function RemoveFirst(s: seq<Ptr>, x: Ptr): seq<Ptr> {
    if s == [] then [] else if s[0] == x then s[1..] else [s[0]] + RemoveFirst(s[1..], x)
  }

  /** Position of the first `x`, or the length of `s` when there is none. */
  function IndexOf(s: seq<Ptr>, x: Ptr): (k: nat)
    ensures k <= |s|
    ensures k < |s| ==> s[k] == x
    ensures forall j | 0 <= j < k :: s[j] != x
  {
    if s == [] || s[0] == x then 0 else 1 + IndexOf(s[1..], x)
  }

  lemma {:induction false} RemoveFirstAt(s: seq<Ptr>, x: Ptr)
    ensures var k := IndexOf(s, x); RemoveFirst(s, x) == if k < |s| then s[..k] + s[k + 1..] else s
  {
    if s != [] && s[0] != x {
      RemoveFirstAt(s[1..], x);
      var k := IndexOf(s, x);
      if k < |s| {
        assert s[..k] == [s[0]] + s[1..][..k - 1];
        assert s[k + 1..] == s[1..][k..];
      }
    }
  }

  lemma TakeNext(s: seq<Ptr>, k: nat)
    requires k < |s|
    ensures s[..k + 1] == s[..k] + [s[k]]
  {
  }

  class Node {
    var data: Ptr
    var next: Node?

    constructor (data: Ptr)
      ensures this.data == data && next == null
    {
      this.data := data;
      next := null;
    }
  }

  class Queue {
    var count: int
    var front: Node?
    var rear: Node?
    ghost var nodes: seq<Node>
    ghost var Repr: set<object>

    /** Node `i` points to the next one, and the last one to nothing. */
    ghost predicate NextOk(i: nat)
      reads this, Repr
    {
      && i < |nodes| && nodes[i] in Repr
      && nodes[i].next == (if i + 1 < |nodes| then nodes[i + 1] else null)
      && nodes[i].data != NULL
    }

    /** The list from `front` runs through `nodes`. */
    ghost predicate Chain()
      reads this, Repr
    {
      && this in Repr
      && (forall i | 0 <= i < |nodes| :: nodes[i] in Repr)
      && (forall i, j | 0 <= i < j < |nodes| :: nodes[i] != nodes[j])
      && (forall i | 0 <= i < |nodes| :: NextOk(i))
      && front == (if nodes == [] then null else nodes[0])
    }

    /** And `count` is its length. */
    ghost predicate Listed()
      reads this, Repr
      ensures Listed() ==> this in Repr
    {
      Chain() && count == |nodes|
    }

    /** `rear` is the last node of a nonempty list. */
    ghost predicate RearOk()
      reads this
    {
      nodes != [] ==> rear == nodes[|nodes| - 1]
    }

    /** `rear` is a node that is no longer in the list, which is not empty. */
    ghost predicate Stale()
      reads this
    {
      nodes != [] && rear != null && rear in Repr && rear !in nodes
    }

    ghost predicate Valid()
      reads this, Repr
      ensures Valid() ==> this in Repr
    {
      Listed() && RearOk()
    }

    ghost function Contents(): (s: seq<Ptr>)
      requires Listed()
      reads this, Repr
      ensures |s| == |nodes|
    {
      seq(|nodes|, i requires 0 <= i < |nodes| && nodes[i] in Repr reads this, Repr => nodes[i].data)
    }

    constructor ()
      ensures Valid() && fresh(Repr) && Contents() == []
    {
      front, rear := null, null;
      count := 0;
      nodes, Repr := [], {this};
    }

    method Length() returns (n: int)
      requires Listed()
      ensures n == |Contents()|
    {
      n := count;
    }

    /** Behind a stale rear the new node is lost to the list, but counted. */
    method Enqueue(data: Ptr) returns (r: int)
      requires Listed() && (RearOk() || Stale())
      modifies Repr
      ensures fresh(Repr - old(Repr))
      ensures r == if data == NULL then -1 else 0
      ensures old(RearOk()) ==> Valid()
      ensures old(RearOk()) ==>
        Contents() == if data == NULL then old(Contents()) else old(Contents()) + [data]
      ensures old(Stale()) && data == NULL ==> Listed() && Stale() && Contents() == old(Contents())
      ensures old(Stale()) && data != NULL ==> Chain() && nodes == old(nodes) && count == |nodes| + 1
      ensures forall n: Node | n in old(Repr) :: n.data == old(n.data)
    {
      var node := new Node(data);
      if data == NULL { return -1; }
      ghost var ok, n := RearOk(), |nodes|;
      if front == null {
        front := node;
        rear := node;
      } else {
        assert NextOk(n - 1);
        rear.next := node;
        rear := rear.next;
      }
      count := count + 1;
      Repr := Repr + {node};
      if ok { nodes := nodes + [node]; }
      forall i | 0 <= i < |nodes| ensures NextOk(i) {
        if i < n { assert old(NextOk(i)); }
      }
      r := 0;
    }

    /** `data` is the slot the item is delivered to; here it is a result. */
    method Dequeue() returns (r: int, data: Ptr)
      requires Listed()
      modifies this
      ensures Listed() && Repr == old(Repr)
      ensures RearOk() <==> old(RearOk()) || |old(nodes)| <= 1
      ensures old(Stale()) ==> RearOk() || Stale()
      ensures old(Contents()) == [] ==> r == -1 && Contents() == []
      ensures old(Contents()) != [] ==>
        r == 0 && data == old(Contents())[0] != NULL && Contents() == old(Contents())[1..]
    {
      data := NULL;
      if front == null || count == 0 { return -1, data; }
      assert NextOk(0);
      data := front.data;
      front := front.next;
      count := count - 1;
      nodes := nodes[1..];
      forall i | 0 <= i < |nodes| ensures NextOk(i) { assert old(NextOk(i + 1)); }
      r := 0;
    }

    /** Takes node `k` out of the list, by way of `front` or of the node before it. */
    method Unlink(ghost k: nat, prev: Node?, temp: Node)
      requires Listed() && k < |nodes| && temp == nodes[k]
      requires prev == if k > 0 then nodes[k - 1] else null
      modifies Repr
      ensures Listed() && Repr == old(Repr)
      ensures nodes == old(nodes)[..k] + old(nodes)[k + 1..] && rear == old(rear)
      ensures forall n: Node | n in Repr :: n.data == old(n.data)
    {
      assert NextOk(k);
      if prev == null {
        front := temp.next;
      } else {
        assert NextOk(k - 1);
        prev.next := temp.next;
      }
      count := count - 1;
      nodes := nodes[..k] + nodes[k + 1..];
      forall i | 0 <= i < |nodes| ensures NextOk(i) {
        if i < k { assert old(NextOk(i)); } else { assert old(NextOk(i + 1)); }
      }
    }

    /** First node holding `data`, with the node before it. */
    method Find(data: Ptr) returns (ghost k: nat, prev: Node?, temp: Node?)
      requires Listed()
      ensures k == IndexOf(Contents(), data)
      ensures temp == if k < |nodes| then nodes[k] else null
      ensures k < |nodes| ==> prev == if k > 0 then nodes[k - 1] else null
    {
      prev, temp, k := null, front, 0;
      while temp != null && temp.data != data
        invariant 0 <= k <= |nodes|
        invariant temp == if k < |nodes| then nodes[k] else null
        invariant prev == if k > 0 then nodes[k - 1] else null
        invariant forall j | 0 <= j < k :: Contents()[j] != data
        decreases |nodes| - k
      {
        assert NextOk(k);
        assert Contents()[k] != data;
        prev := temp;
        temp := temp.next;
        k := k + 1;
      }
      assert k < |nodes| ==> Contents()[k] == data;
    }

    /**
      * Removes the first match. `rear` is never updated: it goes stale exactly when the removed node was the last
      * of several.
      */
    method Delete(data: Ptr) returns (r: int)
      requires Listed()
      modifies Repr
      ensures Listed() && Repr == old(Repr)
      ensures r == if data != NULL && data in old(Contents()) then 0 else -1
      ensures Contents() == RemoveFirst(old(Contents()), data)
      ensures var k := IndexOf(old(Contents()), data);
        nodes == if k < |old(nodes)| then old(nodes)[..k] + old(nodes)[k + 1..] else old(nodes)
      ensures forall n: Node | n in Repr :: n.data == old(n.data)
      ensures old(RearOk() || Stale()) ==> RearOk() || Stale()
      ensures old(Stale()) ==> (RearOk() <==> nodes == [])
      ensures old(RearOk()) ==>
        (RearOk() <==> !(r == 0 && |old(nodes)| > 1 && IndexOf(old(Contents()), data) == |old(nodes)| - 1))
    {
      hide RemoveFirst, IndexOf;
      ghost var b, k := nodes, IndexOf(Contents(), data);
      NoNull();
      r := RemoveMatch(data);
      if k < |b| { RearCut(b, k, rear); }
    }

    /** The removal itself. */
    method RemoveMatch(data: Ptr) returns (r: int)
      requires Listed()
      modifies Repr
      ensures Listed() && Repr == old(Repr) && rear == old(rear)
      ensures r == if data != NULL && data in old(Contents()) then 0 else -1
      ensures r == 0 <==> IndexOf(old(Contents()), data) < |old(nodes)|
      ensures Contents() == RemoveFirst(old(Contents()), data)
      ensures var k := IndexOf(old(Contents()), data);
        nodes == if k < |old(nodes)| then old(nodes)[..k] + old(nodes)[k + 1..] else old(nodes)
      ensures forall n: Node | n in Repr :: n.data == old(n.data)
    {
      hide RemoveFirst, IndexOf;
      ghost var s := Contents();
      RemoveFirstAt(s, data);
      NoNull();
      if data == NULL { return -1; }
      ghost var k;
      var prev: Node?, temp: Node?;
      k, prev, temp := Find(data);
      if temp == null { return -1; }
      Unlink(k, prev, temp);
      assert Contents() == s[..k] + s[k + 1..];
      r := 0;
    }

    /** A rear pointer and the list without its `k`-th node. */
    static lemma RearCut(b: seq<Node>, k: nat, rear: Node?)
      requires k < |b| && forall i, j | 0 <= i < j < |b| :: b[i] != b[j]
      ensures var c := b[..k] + b[k + 1..];
        && (rear != null && rear !in b ==> rear !in c && (c != [] ==> rear != c[|c| - 1]))
        && (rear == b[|b| - 1] && |b| > 1 && k == |b| - 1 ==> rear !in c && rear != c[|c| - 1])
        && (rear == b[|b| - 1] && k < |b| - 1 ==> rear == c[|c| - 1])
    {
    }

    static lemma CutBefore(b: seq<Node>, i: nat, p: nat)
      requires i <= p < |b|
      ensures (b[..i] + b[i + 1..])[p..] == b[p + 1..]
    {
    }

    lemma NoNull()
      requires Listed()
      ensures NULL !in Contents()
    {
      forall i | 0 <= i < |nodes| ensures Contents()[i] != NULL { assert NextOk(i); }
    }

    /**
      * Calls a function on every item. The function may delete the item it is given: `deletes(k)` says whether the
      * `k`-th call does. Every item is visited once and in order all the same. On an empty list the pointer that
      * is freed at the end was never set (`unset`).
      */
    method Iterate(deletes: nat -> bool) returns (visited: seq<Ptr>, unset: bool)
      requires Listed()
      modifies Repr
      ensures Listed() && Repr == old(Repr)
      ensures visited == old(Contents())
      ensures Contents() == AfterCalls(old(Contents()), old(Contents()), deletes, |old(Contents())|)
      ensures unset <==> old(Contents()) == []
    {
      hide RemoveFirst, AfterCalls;
      ghost var was, s := nodes, Contents();
      AfterNone(s, s, deletes);
      forall j | 0 <= j < |was| ensures was[j] in Repr { assert NextOk(j); }
      visited, unset := [], true;
      var node := front;
      ghost var k: nat := 0;
      while node != null
        invariant Listed() && Repr == old(Repr) && Suffix(was, k)
        invariant node == if k < |was| then was[k] else null
        invariant forall j | 0 <= j < |was| :: was[j] in Repr && was[j].data == s[j]
        invariant visited == s[..k]
        invariant Contents() == AfterCalls(s, s, deletes, k)
        invariant unset <==> k == 0
        decreases |was| - k
      {
        unset := false;
        visited := visited + [node.data];
        TakeNext(s, k);
        AfterOne(s, s, deletes, k);
        node := Visit(node, deletes(|visited| - 1), was, k);
        k := k + 1;
      }
    }

    /** One call: the successor is saved first, then the item may be deleted. */
    method Visit(node: Node, delete: bool, ghost was: seq<Node>, ghost k: nat) returns (temp: Node?)
      requires Listed() && Suffix(was, k) && k < |was| && node == was[k]
      modifies Repr
      ensures Listed() && Repr == old(Repr) && Suffix(was, k + 1)
      ensures temp == if k + 1 < |was| then was[k + 1] else null
      ensures Contents() == if delete then RemoveFirst(old(Contents()), old(node.data)) else old(Contents())
      ensures forall n: Node | n in Repr :: n.data == old(n.data)
    {
      temp := NextOf(node, was, k);
      if delete { DeleteSeen(node, was, k); }
    }

    /** The saved successor of the node being visited. */
    method NextOf(node: Node, ghost was: seq<Node>, ghost k: nat) returns (temp: Node?)
      requires Listed() && Suffix(was, k) && k < |was| && node == was[k]
      ensures temp == if k + 1 < |was| then was[k + 1] else null
      ensures Suffix(was, k + 1)
    {
      ghost var p := |nodes| - (|was| - k);
      assert nodes[p] == nodes[p..][0] && NextOk(p);
      assert k + 1 < |was| ==> nodes[p + 1] == nodes[p..][1];
      assert nodes[p + 1..] == nodes[p..][1..];
      temp := node.next;
    }

    /** A call that deletes the item just visited removes that node or an earlier one with the same item. */
    method DeleteSeen(node: Node, ghost was: seq<Node>, ghost k: nat)
      requires Listed() && Suffix(was, k) && Suffix(was, k + 1) && k < |was| && node == was[k]
      modifies Repr
      ensures Listed() && Repr == old(Repr) && Suffix(was, k + 1)
      ensures Contents() == RemoveFirst(old(Contents()), old(node.data))
      ensures forall n: Node | n in Repr :: n.data == old(n.data)
    {
      hide RemoveFirst;
      hide IndexOf;
      ghost var p, c, x := |nodes| - (|was| - k), Contents(), node.data;
      assert nodes[p] == nodes[p..][0];
      assert c[p] == x;
      ghost var i, b := IndexOf(c, x), nodes;
      var _ := Delete(node.data);
      CutBefore(b, i, p);
      assert |nodes| - (|was| - (k + 1)) == p;
    }

    /** The nodes from position `k` of `was` on are still the end of the list. */
    ghost predicate Suffix(was: seq<Node>, k: nat)
      reads this
    {
      k <= |was| && |was| - k <= |nodes| && nodes[|nodes| - (|was| - k)..] == was[k..]
    }
  }

  /** The queue `s` after the first `k` calls on `items`, the `j`-th of which deletes its item when `deletes(j)`. */
  ghost function AfterCalls(s: seq<Ptr>, items: seq<Ptr>, deletes: nat -> bool, k: nat): seq<Ptr>
    requires k <= |items|
  {
    if k == 0 then s
    else
      var t := AfterCalls(s, items, deletes, k - 1);
      if deletes(k - 1) then RemoveFirst(t, items[k - 1]) else t
  }

  lemma AfterNone(s: seq<Ptr>, items: seq<Ptr>, deletes: nat -> bool)
    ensures AfterCalls(s, items, deletes, 0) == s
  {
  }

  lemma AfterOne(s: seq<Ptr>, items: seq<Ptr>, deletes: nat -> bool, k: nat)
    requires k < |items|
    ensures var t := AfterCalls(s, items, deletes, k);
      AfterCalls(s, items, deletes, k + 1) == if deletes(k) then RemoveFirst(t, items[k]) else t
  {
  }

  /** The items of `s[..k]` whose calls do not delete them. */
  ghost function Kept(s: seq<Ptr>, deletes: nat -> bool, k: nat): seq<Ptr>
    requires k <= |s|
  {
    if k == 0 then [] else Kept(s, deletes, k - 1) + (if deletes(k - 1) then [] else [s[k - 1]])
  }

  lemma {:induction false} RemoveBehind(p: seq<Ptr>, q: seq<Ptr>)
    requires q != [] && q[0] !in p
    ensures RemoveFirst(p + q, q[0]) == p + q[1..]
  {
    if p == [] {
      assert p + q == q;
    } else {
      assert (p + q)[0] == p[0] && (p + q)[1..] == p[1..] + q;
      RemoveBehind(p[1..], q);
    }
  }

  /** With distinct items, what remains is exactly the items that were not deleted, in order. */
  lemma {:induction false} DistinctKept(s: seq<Ptr>, deletes: nat -> bool, k: nat)
    requires k <= |s|
    requires forall i, j | 0 <= i < j < |s| :: s[i] != s[j]
    ensures AfterCalls(s, s, deletes, k) == Kept(s, deletes, k) + s[k..]
    ensures forall x | x in Kept(s, deletes, k) :: x in s[..k]
  {
    hide RemoveFirst;
    if k == 0 {
      assert [] + s[0..] == s;
    } else {
      DistinctKept(s, deletes, k - 1);
      var kept, x := Kept(s, deletes, k - 1), s[k - 1];
      TakeNext(s, k - 1);
      var rest := s[k - 1..];
      assert rest[0] == x && rest[1..] == s[k..];
      if deletes(k - 1) {
        RemoveBehind(kept, rest);
      } else {
        assert kept + rest == (kept + [x]) + s[k..];
      }
    }
  }
}
