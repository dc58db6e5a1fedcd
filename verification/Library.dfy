/** The thread library with all its semaphores: whole runs of calls on the heap are the runs of the step system. */
module Library {
  import opened Sched
  import opened LibRuns
  import opened Uthread

  /** A semaphore and the nodes of its wait queue. */
  ghost function Foot(m: Semaphore): set<object>
    reads m, m.waitQueue
  {
    {m} + m.waitQueue.Repr
  }

  class Threads {
    var scheduler: Scheduler
    var sems: seq<Semaphore>
    /** The address of the next thread control block. */
    var next: Tid
    ghost var live: set<Tid>
    ghost var ended: bool
    ghost var Repr: set<object>

    /** The scheduler is sound and in the library's memory. */
    ghost predicate SchedulerIn()
      reads this, Repr
    {
      && this in Repr && scheduler in Repr && scheduler.readyQueue in Repr && scheduler.readyQueue.Repr <= Repr
      && scheduler.Valid() && this !in scheduler.readyQueue.Repr
    }

    /** Semaphore `k` is sound, in the library's memory, and shares none of it with the scheduler. */
    ghost predicate SemIn(k: nat)
      reads this, Repr
    {
      && SchedulerIn() && k < |sems|
      && sems[k] in Repr && sems[k].waitQueue in Repr && sems[k].waitQueue.Repr <= Repr
      && sems[k].Valid() && sems[k].waitQueue in sems[k].waitQueue.Repr
      && scheduler.Apart(sems[k]) && this !in Foot(sems[k]) && scheduler !in Foot(sems[k])
    }

    ghost predicate Disjoint(j: nat, k: nat)
      reads this, Repr
    {
      && j < |sems| && sems[j] in Repr && sems[j].waitQueue in Repr
      && k < |sems| && sems[k] in Repr && sems[k].waitQueue in Repr
      && Foot(sems[j]) !! Foot(sems[k])
    }

    ghost predicate Valid()
      reads this, Repr
      ensures Valid() ==> this in Repr
    {
      && SchedulerIn()
      && (forall k | 0 <= k < |sems| :: SemIn(k))
      && (forall j, k | 0 <= j < |sems| && 0 <= k < |sems| && j != k :: Disjoint(j, k))
    }

    ghost function SemState(k: nat): Sem
      requires SemIn(k)
      reads this, Repr
    {
      sems[k].State()
    }

    ghost function State(): Lib
      requires Valid()
      reads this, Repr
    {
      var values := seq(|sems|, k requires 0 <= k < |sems| && SemIn(k) reads this, Repr => SemState(k));
      Lib(scheduler.State(), values, live, next, ended)
    }

    /** The start of the library, with semaphores made before it with units `counts`, whose memory is `feet`. */
    constructor (sems: seq<Semaphore>, ghost counts: seq<nat>, ghost feet: set<object>)
      requires |counts| == |sems|
      requires forall k | 0 <= k < |sems| ::
        sems[k].Valid() && sems[k].State() == Sem(counts[k], []) && Foot(sems[k]) <= feet
      requires forall j, k | 0 <= j < |sems| && 0 <= k < |sems| && j != k :: Foot(sems[j]) !! Foot(sems[k])
      ensures Valid() && fresh(Repr - feet) && this.sems == sems
      ensures State() == Init(counts)
    {
      this.sems := sems;
      scheduler := new Scheduler(IDLE, 2);
      next := 3;
      live := {IDLE, 2};
      ended := false;
      new;
      Repr := {this, scheduler} + scheduler.readyQueue.Repr + feet;
      forall k | 0 <= k < |sems|
        ensures sems[k].Valid() && sems[k].State() == Sem(counts[k], []) && Foot(sems[k]) <= feet
      {
        Unwritten(sems[k]);
      }
      StartsSound(feet, counts);
    }

    /** A semaphore to which nothing was written is as it was. */
    static twostate lemma Unwritten(m: Semaphore)
      requires old(m.Valid()) && unchanged(m) && unchanged(m.waitQueue) && unchanged(old(m.waitQueue.Repr))
      ensures m.Valid() && m.State() == old(m.State()) && Foot(m) == old(Foot(m))
    {
    }

    lemma StartsSound(feet: set<object>, counts: seq<nat>)
      requires SchedulerIn() && feet <= Repr && feet !! {this, scheduler} + scheduler.readyQueue.Repr
      requires |counts| == |sems|
      requires forall k | 0 <= k < |sems| ::
        sems[k].Valid() && Foot(sems[k]) <= feet && sems[k].State() == Sem(counts[k], [])
      requires forall j, k | 0 <= j < |sems| && 0 <= k < |sems| && j != k :: Foot(sems[j]) !! Foot(sems[k])
      ensures Valid()
      ensures State().sems == seq(|counts|, k requires 0 <= k < |counts| => Sem(counts[k], []))
    {
      forall k | 0 <= k < |sems| ensures SemIn(k) {
        assert sems[k].waitQueue in sems[k].waitQueue.Repr && sems[k].waitQueue in Foot(sems[k]);
      }
      forall j, k | 0 <= j < |sems| && 0 <= k < |sems| && j != k ensures Disjoint(j, k) { assert SemIn(j) && SemIn(k); }
    }

    /** Semaphore `k` is as it was, and still apart from the scheduler. */
    twostate predicate Kept(k: nat)
      reads this, Repr
    {
      && k < |sems| && k < old(|sems|) && old(SemIn(k)) && SemIn(k)
      && SemState(k) == old(SemState(k)) && Foot(sems[k]) == old(Foot(sems[k]))
    }

    /** So it is when nothing was written to it. */
    twostate lemma Untouched(k: nat)
      requires k < |sems| && k < old(|sems|) && sems[k] == old(sems[k]) && old(SemIn(k))
      requires unchanged(sems[k]) && unchanged(old(sems[k].waitQueue)) && unchanged(old(sems[k].waitQueue.Repr))
      requires scheduler == old(scheduler) && scheduler.readyQueue == old(scheduler.readyQueue)
      requires fresh(scheduler.readyQueue.Repr - old(scheduler.readyQueue.Repr))
      requires SchedulerIn() && old(Repr) <= Repr
      ensures Kept(k)
    {
    }

    /** When all semaphores but the `i`-th are kept, and that one is sound, so is the whole. */
    twostate lemma Whole(i: nat)
      requires old(Valid()) && sems == old(sems) && scheduler == old(scheduler) && SchedulerIn()
      requires forall k | 0 <= k < |sems| && k != i :: Kept(k)
      requires i < |sems| ==> SemIn(i) && fresh(Foot(sems[i]) - old(Foot(sems[i])))
      ensures Valid()
      ensures |State().sems| == |old(State()).sems| == |sems|
      ensures forall k | 0 <= k < |sems| ::
        State().sems[k] == if k == i && SemIn(i) then SemState(i) else old(State()).sems[k]
    {
      forall k | 0 <= k < |sems| ensures SemIn(k) { assert k != i ==> Kept(k); }
      forall j, k | 0 <= j < |sems| && 0 <= k < |sems| && j != k ensures Disjoint(j, k) {
        assert old(Disjoint(j, k)) && (j != i ==> Kept(j)) && (k != i ==> Kept(k));
        assert SemIn(j) && SemIn(k);
      }
      forall k | 0 <= k < |sems| && k != i ensures State().sems[k] == old(State()).sems[k] { assert Kept(k); }
    }

    method Create()
      requires Valid()
      modifies this, scheduler.readyQueue.Repr
      ensures Valid() && fresh(Repr - old(Repr))
      ensures State() == old(State()).(
        core := Unblock(old(State()).core, old(next)), live := old(live) + {old(next)}, next := old(next) + 1)
    {
      assert SchedulerIn() && forall k | 0 <= k < |sems| :: SemIn(k);
      scheduler.Create(next);
      live := live + {next};
      next := next + 1;
      Repr := Repr + scheduler.readyQueue.Repr;
      forall k | 0 <= k < |sems| ensures Kept(k) { Untouched(k); }
      Whole(|sems|);
      assert State().sems == old(State()).sems;
    }

    method Yield()
      requires Valid()
      modifies this, scheduler, scheduler.readyQueue.Repr
      ensures Valid() && fresh(Repr - old(Repr))
      ensures State() == old(State()).(core := Sched.Yield(old(State()).core))
    {
      assert SchedulerIn() && forall k | 0 <= k < |sems| :: SemIn(k);
      scheduler.Yield();
      Repr := Repr + scheduler.readyQueue.Repr;
      forall k | 0 <= k < |sems| ensures Kept(k) { Untouched(k); }
      Whole(|sems|);
      assert State().sems == old(State()).sems;
    }

    /** The running thread is recorded as ended, and another one is switched to. */
    method Exit()
      requires Valid() && State().core.ready != []
      modifies this, scheduler, scheduler.readyQueue.Repr
      ensures Valid() && fresh(Repr - old(Repr))
      ensures State() == old(State()).(
        core := Switch(old(State()).core), live := old(live) - {old(State()).core.current})
    {
      assert SchedulerIn() && forall k | 0 <= k < |sems| :: SemIn(k);
      live := live - {scheduler.current};
      scheduler.Block();
      forall k | 0 <= k < |sems| ensures Kept(k) { Untouched(k); }
      Whole(|sems|);
      assert State().sems == old(State()).sems;
    }

    method NewSem(count: nat)
      requires Valid()
      modifies this
      ensures Valid() && fresh(Repr - old(Repr))
      ensures State() == old(State()).(sems := old(State()).sems + [Sem(count, [])])
    {
      assert SchedulerIn() && forall k | 0 <= k < |sems| :: SemIn(k);
      ghost var n := |sems|;
      var m := new Semaphore(count);
      sems := sems + [m];
      Repr := Repr + Foot(m);
      forall k | 0 <= k < n ensures Kept(k) { Untouched(k); }
      assert SemIn(n);
      AddedWhole(m);
      assert State().sems == old(State()).sems + [Sem(count, [])];
    }

    /** A new semaphore at the end: the whole is sound, and the others are as they were. */
    twostate lemma AddedWhole(new m: Semaphore)
      requires old(Valid()) && sems == old(sems) + [m] && scheduler == old(scheduler) && SchedulerIn()
      requires forall k | 0 <= k < |sems| - 1 :: Kept(k)
      requires SemIn(|sems| - 1) && fresh(Foot(m))
      ensures Valid()
      ensures State().sems == old(State()).sems + [m.State()]
    {
      var n := |sems| - 1;
      forall k | 0 <= k < |sems| ensures SemIn(k) { assert k < n ==> Kept(k); }
      forall j, k | 0 <= j < |sems| && 0 <= k < |sems| && j != k ensures Disjoint(j, k) {
        assert (j < n ==> Kept(j)) && (k < n ==> Kept(k)) && SemIn(j) && SemIn(k);
        if j < n && k < n { assert old(Disjoint(j, k)); }
      }
      forall k | 0 <= k < n ensures State().sems[k] == old(State()).sems[k] { assert Kept(k); }
    }

    /** Semaphore `k` shares nothing with semaphore `i` and the scheduler. */
    ghost predicate Far(i: nat, k: nat)
      reads this, Repr
    {
      SemIn(i) && SemIn(k) &&
      var far :=
        && scheduler.readyQueue !in Foot(sems[k]) && sems[k].waitQueue !in scheduler.readyQueue.Repr
        && sems[i] !in Foot(sems[k]) && sems[i].waitQueue !in Foot(sems[k])
        && sems[k] !in sems[i].waitQueue.Repr && sems[k].waitQueue !in sems[i].waitQueue.Repr
        && sems[k].waitQueue.Repr !! sems[i].waitQueue.Repr;
      far
    }

    lemma FarApart(i: nat)
      requires Valid() && i < |sems|
      ensures SemIn(i) && forall k | 0 <= k < |sems| && k != i :: Far(i, k)
    {
      assert SemIn(i);
      forall k | 0 <= k < |sems| && k != i ensures Far(i, k) { assert SemIn(k) && Disjoint(i, k); }
    }

    method Down(i: nat)
      requires Valid() && i < |sems| && State().core.ready != []
      modifies this, scheduler, scheduler.readyQueue, sems[i], sems[i].waitQueue.Repr
      ensures Valid() && fresh(Repr - old(Repr))
      ensures var (c, m) := Sched.Down(old(State()).core, old(State()).sems[i]);
        State() == old(State()).(core := c, sems := old(State()).sems[i := m])
    {
      assert SemIn(i);
      DownCall(i);
      Whole(i);
      assert State().sems == old(State()).sems[i := SemState(i)];
    }

    /** The scheduler and semaphore `i` do it; the other semaphores are left alone. */
    method DownCall(i: nat)
      requires Valid() && i < |sems| && State().core.ready != []
      requires SemIn(i)
      modifies this, scheduler, scheduler.readyQueue, sems[i], sems[i].waitQueue.Repr
      ensures sems == old(sems) && scheduler == old(scheduler)
      ensures next == old(next) && live == old(live) && ended == old(ended)
      ensures SchedulerIn() && SemIn(i) && fresh(Foot(sems[i]) - old(Foot(sems[i]))) && fresh(Repr - old(Repr))
      ensures forall k | 0 <= k < |sems| && k != i :: Kept(k)
      ensures (scheduler.State(), SemState(i)) == Sched.Down(old(scheduler.State()), old(SemState(i)))
    {
      FarApart(i);
      scheduler.SemDown(sems[i]);
      Repr := Repr + Foot(sems[i]);
      forall k | 0 <= k < |sems| && k != i ensures Kept(k) {
        assert old(Far(i, k));
        Untouched(k);
      }
    }

    method Up(i: nat)
      requires Valid() && i < |sems|
      modifies this, scheduler.readyQueue.Repr, sems[i], sems[i].waitQueue
      ensures Valid() && fresh(Repr - old(Repr))
      ensures var (c, m) := Sched.Up(old(State()).core, old(State()).sems[i]);
        State() == old(State()).(core := c, sems := old(State()).sems[i := m])
    {
      assert SemIn(i);
      UpCall(i);
      Whole(i);
      assert State().sems == old(State()).sems[i := SemState(i)];
    }

    /** The same for a release. */
    method UpCall(i: nat)
      requires Valid() && i < |sems|
      requires SemIn(i)
      modifies this, scheduler.readyQueue.Repr, sems[i], sems[i].waitQueue
      ensures sems == old(sems) && scheduler == old(scheduler)
      ensures next == old(next) && live == old(live) && ended == old(ended)
      ensures SchedulerIn() && SemIn(i) && fresh(Foot(sems[i]) - old(Foot(sems[i]))) && fresh(Repr - old(Repr))
      ensures forall k | 0 <= k < |sems| && k != i :: Kept(k)
      ensures (scheduler.State(), SemState(i)) == Sched.Up(old(scheduler.State()), old(SemState(i)))
    {
      FarApart(i);
      scheduler.SemUp(sems[i]);
      Repr := Repr + scheduler.readyQueue.Repr;
      forall k | 0 <= k < |sems| && k != i ensures Kept(k) {
        assert old(Far(i, k));
        Untouched(k);
      }
    }

    /** The test of the idle loop. */
    method OthersReady() returns (more: bool)
      requires Valid()
      ensures more <==> |State().core.ready| > 1
    {
      var n := scheduler.readyQueue.Length();
      more := n > 1;
    }

    /** One call of the running thread. */
    method Perform(a: Act)
      requires Valid() && Good(State()) && Enabled(State(), a)
      modifies Repr
      ensures Valid() && fresh(Repr - old(Repr))
      ensures State() == Step(old(State()), a)
    {
      hide Good;
      assert SchedulerIn() && forall k | 0 <= k < |sems| :: SemIn(k);
      if a.Exit? || a.Down? { ReadyNotEmpty(State()); }
      match a {
        case Create => Create();
        case Yield => Yield();
        case Exit => Exit();
        case NewSem(n) => NewSem(n);
        case Down(i) =>
          assert SemIn(i);
          Down(i);
        case Up(i) =>
          assert SemIn(i);
          Up(i);
        case Return => Leave();
      }
    }

    /** The idle thread leaves its loop. */
    ghost method Leave()
      requires Valid()
      modifies this
      ensures Valid() && fresh(Repr - old(Repr))
      ensures State() == old(State()).(ended := true)
    {
      ended := true;
      forall k | 0 <= k < |sems| ensures Kept(k) {
        assert old(SemIn(k));
        Untouched(k);
      }
      Whole(|sems|);
      assert State().sems == old(State()).sems;
    }

    /** Every run of calls on the heap is the run of the step system. */
    method Execute(acts: seq<Act>)
      requires Valid() && Good(State()) && AllEnabled(State(), acts)
      modifies Repr
      ensures Valid() && fresh(Repr - old(Repr))
      ensures State() == Run(old(State()), acts)
    {
      hide Good, Enabled, Step, AllEnabled, Run, State, Foot, SemIn;
      ghost var start, own := State(), Repr;
      var i := 0;
      while i < |acts|
        invariant i <= |acts| && Valid() && fresh(Repr - own)
        invariant Good(State()) && AllEnabled(State(), acts[i..])
        invariant Run(State(), acts[i..]) == Run(start, acts)
      {
        ghost var rest, s := acts[i..], State();
        RunFirst(s, rest);
        assert rest[0] == acts[i] && rest[1..] == acts[i + 1..];
        Perform(acts[i]);
        i := i + 1;
      }
      assert acts[i..] == [];
      RunNone(State());
    }
  }
}
