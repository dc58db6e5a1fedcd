/** The thread library's queues, current-thread pointer and semaphores, updated in place. */
module Uthread {
  import Q = Queue
  import opened Sched

  class Semaphore {
    var count: int
    var waitQueue: Q.Queue

    ghost predicate Valid()
      reads this, waitQueue, waitQueue.Repr
    {
      waitQueue.Valid() && this !in waitQueue.Repr
    }

    ghost function State(): Sem
      requires Valid()
      reads this, waitQueue, waitQueue.Repr
    {
      Sem(count, Tids(waitQueue))
    }

    constructor (count: int)
      ensures Valid() && fresh(waitQueue) && fresh(waitQueue.Repr)
      ensures State() == Sem(count, [])
    {
      this.count := count;
      waitQueue := new Q.Queue();
    }

    method AddWaiter(t: Tid)
      requires Valid()
      modifies waitQueue.Repr
      ensures Valid() && fresh(waitQueue.Repr - old(waitQueue.Repr))
      ensures State() == old(State()).(waiters := old(State()).waiters + [t])
    {
      var _ := waitQueue.Enqueue(t);
    }

    method TakeWaiter() returns (t: Tid)
      requires Valid() && State().waiters != []
      modifies waitQueue
      ensures Valid() && waitQueue.Repr == old(waitQueue.Repr)
      ensures t == old(State()).waiters[0]
      ensures State() == old(State()).(waiters := old(State()).waiters[1..])
    {
      var _, data := waitQueue.Dequeue();
      t := data;
    }

    /** Refused while threads wait. */
    method Destroy() returns (r: int)
      requires Valid()
      ensures r == if State().waiters == [] then 0 else -1
    {
      var n := waitQueue.Length();
      r := if n != 0 then -1 else 0;
    }
  }

  /** The items of a queue of thread control blocks. */
  ghost function Tids(q: Q.Queue): (s: seq<Tid>)
    requires q.Valid()
    reads q, q.Repr
    ensures s == q.Contents()
  {
    q.NoNull();
    q.Contents()
  }

  class Scheduler {
    var readyQueue: Q.Queue
    var current: Tid

    ghost predicate Valid()
      reads this, readyQueue, readyQueue.Repr
    {
      readyQueue.Valid() && this !in readyQueue.Repr
    }

    ghost function State(): Core
      requires Valid()
      reads this, readyQueue, readyQueue.Repr
    {
      Core(current, Tids(readyQueue))
    }

    /** The start of the library: the parent is current, and is also put into the ready queue; then comes `first`. */
    constructor (parent: Tid, first: Tid)
      ensures Valid() && fresh(readyQueue) && fresh(readyQueue.Repr)
      ensures State() == Core(parent, [parent, first])
    {
      current := parent;
      readyQueue := new Q.Queue();
      new;
      var _ := readyQueue.Enqueue(parent);
      Create(first);
    }

    method Create(t: Tid)
      requires Valid()
      modifies readyQueue.Repr
      ensures Valid() && fresh(readyQueue.Repr - old(readyQueue.Repr))
      ensures State() == Sched.Unblock(old(State()), t)
    {
      var _ := readyQueue.Enqueue(t);
    }

    method Unblock(t: Tid)
      requires Valid()
      modifies readyQueue.Repr
      ensures Valid() && fresh(readyQueue.Repr - old(readyQueue.Repr))
      ensures State() == Sched.Unblock(old(State()), t)
    {
      var _ := readyQueue.Enqueue(t);
    }

    /** The context switch of a thread that blocks or exits. */
    method Block()
      requires Valid() && State().ready != []
      modifies this`current, readyQueue
      ensures Valid() && readyQueue.Repr == old(readyQueue.Repr)
      ensures State() == Switch(old(State()))
    {
      var _, next := readyQueue.Dequeue();
      current := next;
    }

    method Yield()
      requires Valid()
      modifies this`current, readyQueue.Repr
      ensures Valid() && fresh(readyQueue.Repr - old(readyQueue.Repr))
      ensures State() == Sched.Yield(old(State()))
    {
      var prev := current;
      var _ := readyQueue.Enqueue(prev);
      var _, next := readyQueue.Dequeue();
      current := next;
    }

    /** The semaphore and the scheduler use different queues. */
    ghost predicate Apart(sem: Semaphore)
      reads this, readyQueue, sem, sem.waitQueue
    {
      sem.waitQueue.Repr !! readyQueue.Repr && this !in sem.waitQueue.Repr && sem !in readyQueue.Repr
    }

    method SemDown(sem: Semaphore)
      requires Valid() && sem.Valid() && Apart(sem)
      requires sem.count == 0 ==> State().ready != []
      modifies this`current, readyQueue, sem`count, sem.waitQueue.Repr
      ensures Valid() && sem.Valid() && Apart(sem)
      ensures readyQueue.Repr == old(readyQueue.Repr) && fresh(sem.waitQueue.Repr - old(sem.waitQueue.Repr))
      ensures (State(), sem.State()) == Down(old(State()), old(sem.State()))
    {
      if sem.count == 0 {
        sem.AddWaiter(current);
        Block();
      } else {
        sem.count := sem.count - 1;
      }
    }

    method SemUp(sem: Semaphore)
      requires Valid() && sem.Valid() && Apart(sem)
      modifies readyQueue.Repr, sem`count, sem.waitQueue
      ensures Valid() && sem.Valid() && Apart(sem)
      ensures fresh(readyQueue.Repr - old(readyQueue.Repr)) && sem.waitQueue.Repr == old(sem.waitQueue.Repr)
      ensures (State(), sem.State()) == Up(old(State()), old(sem.State()))
    {
      sem.count := sem.count + 1;
      var n := sem.waitQueue.Length();
      if n > 0 {
        sem.count := sem.count - 1;
        WakeOne(sem);
      }
    }

    /** The oldest waiter becomes ready. */
    method WakeOne(sem: Semaphore)
      requires Valid() && sem.Valid() && Apart(sem) && sem.State().waiters != []
      modifies readyQueue.Repr, sem.waitQueue
      ensures Valid() && sem.Valid() && Apart(sem)
      ensures fresh(readyQueue.Repr - old(readyQueue.Repr)) && sem.waitQueue.Repr == old(sem.waitQueue.Repr)
      ensures sem.State() == old(sem.State()).(waiters := old(sem.State()).waiters[1..])
      ensures State() == Sched.Unblock(old(State()), old(sem.State()).waiters[0])
    {
      var next := sem.TakeWaiter();
      Unblock(next);
    }
  }
}
