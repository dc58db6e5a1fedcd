/** Runs of the thread library: every sequence of library calls by the threads, under cooperative scheduling. */
module LibRuns {
  import opened Sched

  /** The parent of `uthread_start`, which runs the idle loop. */
  const IDLE: Tid := 1

  /** `live` are the threads that have not exited, the idle thread included; `next` is the next thread to be made. */
  datatype Lib = Lib(core: Core, sems: seq<Sem>, live: set<Tid>, next: Tid, ended: bool)

  /** What the running thread does next. `Return` is the idle thread leaving its loop. */
  datatype Act = Create | Yield | Exit | NewSem(count: nat) | Down(i: nat) | Up(i: nat) | Return

  /** The state in which the idle loop starts: semaphores made before it, the idle thread also queued, one thread. */
  function Init(counts: seq<nat>): Lib {
    Lib(Core(IDLE, [IDLE, 2]), seq(|counts|, i requires 0 <= i < |counts| => Sem(counts[i], [])), {IDLE, 2}, 3, false)
  }

  /** The idle thread only yields, while another thread is ready, or returns; other threads do anything else. */
  predicate Enabled(s: Lib, a: Act) {
    && !s.ended
    && match a
       case Yield => s.core.current == IDLE ==> |s.core.ready| > 1
       case Return => s.core.current == IDLE && |s.core.ready| <= 1
       case Down(i) => s.core.current != IDLE && i < |s.sems|
       case Up(i) => s.core.current != IDLE && i < |s.sems|
       case _ => s.core.current != IDLE
  }

  /** How often `t` occurs in a queue. */
  function Count(q: seq<Tid>, t: Tid): nat {
    if q == [] then 0 else (if q[0] == t then 1 else 0) + Count(q[1..], t)
  }

  /** In how many places thread `t` waits. */
  function Waiting(sems: seq<Sem>, t: Tid): nat {
    if sems == [] then 0 else Count(sems[0].waiters, t) + Waiting(sems[1..], t)
  }

  /** In how many places the scheduler holds `t`: running, or in the ready queue. */
  function Runnable(c: Core, t: Tid): nat { (if c.current == t then 1 else 0) + Count(c.ready, t) }

  /** In how many places `t` belongs: one while it lives; the idle thread, queued while it was running, in two. */
  function Due(live: set<Tid>, t: Tid): nat { (if t in live then 1 else 0) + if t == IDLE then 1 else 0 }

  ghost predicate Census(s: Lib) {
    forall t: Tid :: Runnable(s.core, t) + Waiting(s.sems, t) == Due(s.live, t)
  }

  ghost predicate Good(s: Lib) {
    && Census(s)
    && IDLE in s.live && Waiting(s.sems, IDLE) == 0
    && (forall t | t in s.live :: t < s.next)
    && (forall i | 0 <= i < |s.sems| :: SemOk(s.sems[i]))
  }

  function Step(s: Lib, a: Act): Lib
    requires Good(s) && Enabled(s, a)
  {
    match a
    case Create => s.(core := Unblock(s.core, s.next), live := s.live + {s.next}, next := s.next + 1)
    case Yield => s.(core := Sched.Yield(s.core))
    case Exit => ReadyNotEmpty(s); s.(core := Switch(s.core), live := s.live - {s.core.current})
    case NewSem(n) => s.(sems := s.sems + [Sem(n, [])])
    case Down(i) => ReadyNotEmpty(s); var (c, m) := Sched.Down(s.core, s.sems[i]); s.(core := c, sems := s.sems[i := m])
    case Up(i) => var (c, m) := Sched.Up(s.core, s.sems[i]); s.(core := c, sems := s.sems[i := m])
    case Return => s.(ended := true)
  }

  /** The dequeue in exit and block always finds somebody: the idle thread at the least. */
  lemma ReadyNotEmpty(s: Lib)
    requires Good(s) && s.core.current != IDLE
    ensures s.core.ready != []
  {
    assert Runnable(s.core, IDLE) + Waiting(s.sems, IDLE) == 2;
  }

  // ---------------------------------------------------------------- counting

  lemma {:induction false} CountJoin(p: seq<Tid>, q: seq<Tid>, t: Tid)
    ensures Count(p + q, t) == Count(p, t) + Count(q, t)
  {
    if p == [] {
      assert p + q == q;
    } else {
      assert (p + q)[1..] == p[1..] + q;
      CountJoin(p[1..], q, t);
    }
  }

  lemma CountPush(q: seq<Tid>, x: Tid)
    ensures forall t: Tid :: Count(q + [x], t) == Count(q, t) + if x == t then 1 else 0
  {
    forall t: Tid ensures Count(q + [x], t) == Count(q, t) + if x == t then 1 else 0 {
      CountJoin(q, [x], t);
      assert [x][1..] == [];
      assert Count([], t) == 0;
      assert Count([x], t) == if x == t then 1 else 0;
    }
  }

  lemma {:induction false} WaitUpdate(sems: seq<Sem>, i: nat, m: Sem, t: Tid)
    requires i < |sems|
    ensures Waiting(sems[i := m], t) + Count(sems[i].waiters, t) == Waiting(sems, t) + Count(m.waiters, t)
  {
    if i > 0 {
      assert sems[i := m][1..] == sems[1..][i - 1 := m];
      WaitUpdate(sems[1..], i - 1, m, t);
    } else {
      assert sems[i := m][1..] == sems[1..];
    }
  }

  lemma {:induction false} WaitNew(sems: seq<Sem>, n: nat, t: Tid)
    ensures Waiting(sems + [Sem(n, [])], t) == Waiting(sems, t)
  {
    if sems == [] {
      assert (sems + [Sem(n, [])])[1..] == [];
    } else {
      assert (sems + [Sem(n, [])])[1..] == sems[1..] + [Sem(n, [])];
      WaitNew(sems[1..], n, t);
    }
  }

  lemma {:induction false} NobodyWaits(sems: seq<Sem>, t: Tid)
    requires forall i | 0 <= i < |sems| :: sems[i].waiters == []
    ensures Waiting(sems, t) == 0
  {
    if sems != [] { NobodyWaits(sems[1..], t); }
  }

  lemma {:induction false} WaitsSomewhere(sems: seq<Sem>, i: nat, t: Tid)
    requires i < |sems|
    ensures Count(sems[i].waiters, t) <= Waiting(sems, t)
  {
    if i > 0 { WaitsSomewhere(sems[1..], i - 1, t); }
  }

  // ---------------------------------------------------------------- what every step keeps

  lemma InitGood(counts: seq<nat>)
    ensures Good(Init(counts))
  {
    var s := Init(counts);
    forall t: Tid ensures Waiting(s.sems, t) == 0 { NobodyWaits(s.sems, t); }
    forall t: Tid ensures Runnable(s.core, t) == Due(s.live, t) {
      assert [IDLE, 2][1..] == [2];
      assert Count([2][1..], t) == 0;
      assert Count([2], t) == if t == 2 then 1 else 0;
    }
  }

  lemma StepGood(s: Lib, a: Act)
    requires Good(s) && Enabled(s, a)
    ensures Good(Step(s, a))
  {
    match a
    case Create => CountPush(s.core.ready, s.next);
    case Yield => CountPush(s.core.ready, s.core.current);
    case Exit => ExitGood(s);
    case NewSem(n) =>
      forall t: Tid ensures Waiting(s.sems + [Sem(n, [])], t) == Waiting(s.sems, t) { WaitNew(s.sems, n, t); }
    case Down(i) => DownGood(s, i);
    case Up(i) => UpGood(s, i);
    case Return =>
  }

  lemma ExitGood(s: Lib)
    requires Good(s) && Enabled(s, Exit)
    ensures Good(Step(s, Exit))
  {
    ReadyNotEmpty(s);
    var t := s.core.current;
    assert Runnable(s.core, t) + Waiting(s.sems, t) == Due(s.live, t);
  }

  lemma DownGood(s: Lib, i: nat)
    requires Good(s) && Enabled(s, Down(i))
    ensures Good(Step(s, Down(i)))
  {
    ReadyNotEmpty(s);
    var (c, m) := Sched.Down(s.core, s.sems[i]);
    CountPush(s.sems[i].waiters, s.core.current);
    forall t: Tid
      ensures Waiting(s.sems[i := m], t) + Count(s.sems[i].waiters, t) == Waiting(s.sems, t) + Count(m.waiters, t)
    {
      WaitUpdate(s.sems, i, m, t);
    }
  }

  lemma UpGood(s: Lib, i: nat)
    requires Good(s) && Enabled(s, Up(i))
    ensures Good(Step(s, Up(i)))
  {
    var (c, m) := Sched.Up(s.core, s.sems[i]);
    var q := s.sems[i].waiters;
    if q != [] {
      CountPush(s.core.ready, q[0]);
    }
    forall t: Tid
      ensures Waiting(s.sems[i := m], t) + Count(q, t) == Waiting(s.sems, t) + Count(m.waiters, t)
    {
      WaitUpdate(s.sems, i, m, t);
    }
  }

  // ---------------------------------------------------------------- runs

  ghost predicate AllEnabled(s: Lib, acts: seq<Act>)
    requires Good(s)
    decreases |acts|
  {
    acts != [] ==> Enabled(s, acts[0]) && (StepGood(s, acts[0]); AllEnabled(Step(s, acts[0]), acts[1..]))
  }

  function Run(s: Lib, acts: seq<Act>): Lib
    requires Good(s) && AllEnabled(s, acts)
    decreases |acts|
  {
    if acts == [] then s else StepGood(s, acts[0]); Run(Step(s, acts[0]), acts[1..])
  }

  lemma RunFirst(s: Lib, acts: seq<Act>)
    requires Good(s) && AllEnabled(s, acts) && acts != []
    ensures Enabled(s, acts[0]) && Good(Step(s, acts[0])) && AllEnabled(Step(s, acts[0]), acts[1..])
    ensures Run(s, acts) == Run(Step(s, acts[0]), acts[1..])
  {
    StepGood(s, acts[0]);
  }

  lemma RunNext(s: Lib, a: Act, acts: seq<Act>)
    requires Good(s) && Enabled(s, a) && Good(Step(s, a)) && AllEnabled(Step(s, a), acts)
    ensures AllEnabled(s, [a] + acts) && Run(s, [a] + acts) == Run(Step(s, a), acts)
  {
    assert ([a] + acts)[0] == a && ([a] + acts)[1..] == acts;
  }

  lemma {:induction false} RunJoin(s: Lib, x: seq<Act>, y: seq<Act>)
    requires Good(s) && AllEnabled(s, x) && Good(Run(s, x)) && AllEnabled(Run(s, x), y)
    ensures AllEnabled(s, x + y) && Run(s, x + y) == Run(Run(s, x), y)
    decreases |x|
  {
    hide Good, Enabled, Step;
    if x == [] {
      assert x + y == y;
    } else {
      StepGood(s, x[0]);
      assert (x + y)[0] == x[0] && (x + y)[1..] == x[1..] + y;
      RunJoin(Step(s, x[0]), x[1..], y);
    }
  }

  lemma OneCall(s: Lib, a: Act)
    requires Good(s) && Enabled(s, a)
    ensures AllEnabled(s, [a]) && Run(s, [a]) == Step(s, a) && Good(Step(s, a))
  {
    StepGood(s, a);
    assert [a][1..] == [];
  }

  lemma RunNone(s: Lib)
    requires Good(s)
    ensures AllEnabled(s, []) && Run(s, []) == s
  {
  }

  /** Conservation holds in every state a run can reach. */
  lemma {:induction false} RunGood(s: Lib, acts: seq<Act>)
    requires Good(s) && AllEnabled(s, acts)
    ensures Good(Run(s, acts))
    decreases |acts|
  {
    if acts != [] {
      StepGood(s, acts[0]);
      RunGood(Step(s, acts[0]), acts[1..]);
    }
  }

  /**
    * Where a thread is: running, ready or waiting in exactly one place while it lives, nowhere after its exit; the idle
    * thread is in the scheduler's hands twice.
    */
  lemma WhereIs(s: Lib, t: Tid)
    requires Good(s)
    ensures t in s.live && t != IDLE ==> Runnable(s.core, t) + Waiting(s.sems, t) == 1
    ensures t !in s.live ==> Runnable(s.core, t) == 0 && Waiting(s.sems, t) == 0
    ensures Runnable(s.core, IDLE) == 2 && Waiting(s.sems, IDLE) == 0
  {
    assert Runnable(s.core, t) + Waiting(s.sems, t) == Due(s.live, t);
    assert Runnable(s.core, IDLE) + Waiting(s.sems, IDLE) == Due(s.live, IDLE);
  }

  /** A thread that waits on a semaphore waits there once, and nowhere else. */
  lemma WaitsOnce(s: Lib, t: Tid, i: nat)
    requires Good(s) && i < |s.sems| && t in s.sems[i].waiters
    ensures Waiting(s.sems, t) == 1 == Count(s.sems[i].waiters, t) && Runnable(s.core, t) == 0 && t in s.live
  {
    WhereIs(s, t);
    WaitsSomewhere(s.sems, i, t);
    Occurs(s.sems[i].waiters, t);
  }

  lemma {:induction false} Occurs(q: seq<Tid>, t: Tid)
    requires t in q
    ensures Count(q, t) > 0
  {
    if q[0] != t { Occurs(q[1..], t); }
  }

  lemma {:induction false} WaitPlace(sems: seq<Sem>, t: Tid) returns (i: nat)
    requires Waiting(sems, t) > 0
    ensures i < |sems| && t in sems[i].waiters
  {
    if Count(sems[0].waiters, t) > 0 {
      i := 0;
      Found(sems[0].waiters, t);
    } else {
      i := WaitPlace(sems[1..], t);
      i := i + 1;
    }
  }

  lemma {:induction false} Found(q: seq<Tid>, t: Tid)
    requires Count(q, t) > 0
    ensures t in q
  {
    if q[0] != t { Found(q[1..], t); }
  }

  /** While the idle thread runs, it is queued once. */
  lemma QueuedOnce(s: Lib)
    requires Good(s) && s.core.current == IDLE && |s.core.ready| > 1
    ensures s.core.ready[0] == IDLE ==> s.core.ready[1] != IDLE
  {
    var r := s.core.ready;
    assert Runnable(s.core, IDLE) + Waiting(s.sems, IDLE) == Due(s.live, IDLE);
    assert Count(r, IDLE) == 1;
    assert r[1..][0] == r[1];
    if r[0] == IDLE { assert Count(r[1..], IDLE) == 0; }
  }

  lemma IdleLives(s: Lib)
    requires Good(s)
    ensures IDLE in s.live
  {
  }

  /** How far the idle thread is from giving way to another one; it is queued once itself. */
  function IdleRank(s: Lib): nat {
    if s.core.current != IDLE then 0 else if s.core.ready != [] && s.core.ready[0] != IDLE then 1 else 2
  }

  /** The idle loop ends only when no other thread is ready; whoever still lives waits on a semaphore. */
  lemma ReturnMeansDone(s: Lib)
    requires Good(s) && Enabled(s, Return)
    ensures s.core.ready == [IDLE]
    ensures forall t: Tid | t in s.live && t != IDLE :: Waiting(s.sems, t) == 1
    ensures (forall i | 0 <= i < |s.sems| :: s.sems[i].waiters == []) ==> s.live == {IDLE}
  {
    assert Runnable(s.core, IDLE) + Waiting(s.sems, IDLE) == 2;
    assert Count(s.core.ready, IDLE) == 1;
    assert s.core.ready != [] && s.core.ready[1..] == [];
    assert Count([], IDLE) == 0;
    assert s.core.ready[0] == IDLE;
    forall t: Tid | t in s.live && t != IDLE ensures Waiting(s.sems, t) == 1 {
      assert Runnable(s.core, t) + Waiting(s.sems, t) == Due(s.live, t);
      assert Count(s.core.ready, t) == Count(s.core.ready[1..], t) == 0;
    }
    if forall i | 0 <= i < |s.sems| :: s.sems[i].waiters == [] {
      forall t: Tid | t in s.live ensures t == IDLE { NobodyWaits(s.sems, t); }
      assert s.live == {IDLE};
    }
  }

  // ---------------------------------------------------------------- round robin

  predicate Switches(s: Lib, a: Act) {
    a.Yield? || a.Exit? || (a.Down? && a.i < |s.sems| && s.sems[a.i].count == 0)
  }

  /** Number of context switches of a run. */
  function SwitchCount(s: Lib, acts: seq<Act>): nat
    requires Good(s) && AllEnabled(s, acts)
    decreases |acts|
  {
    if acts == [] then 0
    else
      StepGood(s, acts[0]);
      (if Switches(s, acts[0]) then 1 else 0) + SwitchCount(Step(s, acts[0]), acts[1..])
  }

  lemma MovesOne(s: Lib, a: Act, i: nat)
    requires Good(s) && Enabled(s, a) && i < |s.core.ready|
    ensures var r := Step(s, a).core.ready; var j := if Switches(s, a) then i - 1 else i;
      j >= 0 ==> j < |r| && r[j] == s.core.ready[i]
    ensures Switches(s, a) && i == 0 ==> Step(s, a).core.current == s.core.ready[0]
  {
    hide Good;
  }

  /** Each switch moves a queued thread one place forward, whatever the threads do in between. */
  lemma {:induction false} MovesUp(s: Lib, acts: seq<Act>, i: nat)
    requires Good(s) && AllEnabled(s, acts) && i < |s.core.ready| && SwitchCount(s, acts) <= i
    ensures var d := Run(s, acts).core; var k := i - SwitchCount(s, acts);
      k < |d.ready| && d.ready[k] == s.core.ready[i]
    decreases |acts|
  {
    if acts != [] {
      StepGood(s, acts[0]);
      MovesOne(s, acts[0], i);
      hide Good, Enabled, Step, Switches;
      MovesUp(Step(s, acts[0]), acts[1..], if Switches(s, acts[0]) then i - 1 else i);
    }
  }

  /** The thread at position `i` of the ready queue is the one the `i + 1`-th switch from now dispatches. */
  lemma RoundRobin(s: Lib, acts: seq<Act>, i: nat, a: Act)
    requires Good(s) && AllEnabled(s, acts) && i < |s.core.ready| && SwitchCount(s, acts) == i
    requires Enabled(Run(s, acts), a) && Switches(Run(s, acts), a)
    ensures (RunGood(s, acts); Step(Run(s, acts), a).core.current == s.core.ready[i])
  {
    RunGood(s, acts);
    MovesUp(s, acts, i);
    MovesOne(Run(s, acts), a, 0);
  }

  // ---------------------------------------------------------------- semaphores over runs

  /** Threads that blocked on semaphore `i`, threads woken from it, releases, and units taken without blocking. */
  datatype Traffic = Traffic(blocked: seq<Tid>, woken: seq<Tid>, ups: nat, taken: nat)

  function Observe(s: Lib, a: Act, i: nat): Traffic
    requires i < |s.sems|
  {
    if a == Down(i) then
      if s.sems[i].count == 0 then Traffic([s.core.current], [], 0, 0) else Traffic([], [], 0, 1)
    else if a == Up(i) then
      Traffic([], if s.sems[i].waiters == [] then [] else [s.sems[i].waiters[0]], 1, 0)
    else Traffic([], [], 0, 0)
  }

  function Join(x: Traffic, y: Traffic): Traffic {
    Traffic(x.blocked + y.blocked, x.woken + y.woken, x.ups + y.ups, x.taken + y.taken)
  }

  function ObserveRun(s: Lib, acts: seq<Act>, i: nat): Traffic
    requires Good(s) && AllEnabled(s, acts) && i < |s.sems|
    decreases |acts|
  {
    if acts == [] then Traffic([], [], 0, 0)
    else
      StepGood(s, acts[0]);
      Join(Observe(s, acts[0], i), ObserveRun(Step(s, acts[0]), acts[1..], i))
  }

  /** Units in equals units out, and threads leave the wait queue in the order in which they joined it. */
  ghost predicate Balanced(s: Sem, t: Sem, x: Traffic) {
    && s.count + x.ups == t.count + x.taken + |x.woken|
    && s.waiters + x.blocked == x.woken + t.waiters
  }

  lemma StepBalanced(s: Lib, a: Act, i: nat)
    requires Good(s) && Enabled(s, a) && i < |s.sems|
    ensures i < |Step(s, a).sems| && Balanced(s.sems[i], Step(s, a).sems[i], Observe(s, a, i))
  {
    var m := s.sems[i];
    if a == Up(i) && m.waiters != [] { assert [m.waiters[0]] + m.waiters[1..] == m.waiters; }
  }

  lemma JoinBalanced(s: Sem, t: Sem, u: Sem, x: Traffic, y: Traffic)
    requires Balanced(s, t, x) && Balanced(t, u, y)
    ensures Balanced(s, u, Join(x, y))
  {
    assert s.waiters + (x.blocked + y.blocked) == (s.waiters + x.blocked) + y.blocked;
    assert (x.woken + y.woken) + u.waiters == x.woken + (y.woken + u.waiters);
    assert x.woken + (t.waiters + y.blocked) == (x.woken + t.waiters) + y.blocked;
  }

  /**
    * Accounting and FIFO order over any run: initial units and releases are the units left, taken and handed over;
    * whoever waited or blocks is woken in that order.
    */
  lemma {:induction false} RunBalanced(s: Lib, acts: seq<Act>, i: nat)
    requires Good(s) && AllEnabled(s, acts) && i < |s.sems|
    ensures i < |Run(s, acts).sems| && Balanced(s.sems[i], Run(s, acts).sems[i], ObserveRun(s, acts, i))
    decreases |acts|, 1
  {
    if acts == [] {
      BalancedStart(s.sems[i]);
    } else {
      RunBalancedNext(s, acts, i);
    }
  }

  lemma {:induction false} RunBalancedNext(s: Lib, acts: seq<Act>, i: nat)
    requires Good(s) && AllEnabled(s, acts) && i < |s.sems| && acts != []
    ensures i < |Run(s, acts).sems| && Balanced(s.sems[i], Run(s, acts).sems[i], ObserveRun(s, acts, i))
    decreases |acts|, 0
  {
    hide Good, Enabled, Step, Balanced, Observe, Join;
    StepGood(s, acts[0]);
    StepBalanced(s, acts[0], i);
    var t := Step(s, acts[0]);
    RunBalanced(t, acts[1..], i);
    JoinBalanced(s.sems[i], t.sems[i], Run(s, acts).sems[i], Observe(s, acts[0], i), ObserveRun(t, acts[1..], i));
  }

  lemma BalancedStart(s: Sem)
    ensures Balanced(s, s, Traffic([], [], 0, 0))
  {
    assert s.waiters + [] == [] + s.waiters;
  }

  /** From the start, with nobody waiting, the threads woken so far are the first ones that blocked. */
  lemma FifoHandOff(counts: seq<nat>, acts: seq<Act>, i: nat)
    requires i < |counts| && (InitGood(counts); AllEnabled(Init(counts), acts))
    ensures i < |Run(Init(counts), acts).sems|
    ensures var x := ObserveRun(Init(counts), acts, i);
      && x.woken <= x.blocked
      && var m := Run(Init(counts), acts).sems[i];
      && counts[i] + x.ups == m.count + x.taken + |x.woken|
      && 0 <= m.count && (m.waiters != [] ==> m.count == 0)
  {
    InitGood(counts);
    RunGood(Init(counts), acts);
    assert Init(counts).sems[i].waiters == [];
    RunBalanced(Init(counts), acts, i);
    var x := ObserveRun(Init(counts), acts, i);
    assert x.blocked == x.woken + Run(Init(counts), acts).sems[i].waiters;
  }

  /** A semaphore made in a run starts with its units and nobody waiting, and keeps the same account from there on. */
  lemma NewSemaphore(s: Lib, n: nat, acts: seq<Act>)
    requires Good(s) && Enabled(s, NewSem(n))
    requires (StepGood(s, NewSem(n)); AllEnabled(Step(s, NewSem(n)), acts))
    ensures (StepGood(s, NewSem(n)); |s.sems| < |Step(s, NewSem(n)).sems|)
    ensures (StepGood(s, NewSem(n)); |s.sems| < |Run(Step(s, NewSem(n)), acts).sems|)
    ensures var x := (StepGood(s, NewSem(n)); ObserveRun(Step(s, NewSem(n)), acts, |s.sems|));
      var m := (StepGood(s, NewSem(n)); Run(Step(s, NewSem(n)), acts).sems[|s.sems|]);
      && n + x.ups == m.count + x.taken + |x.woken|
      && x.blocked == x.woken + m.waiters
      && 0 <= m.count && (m.waiters != [] ==> m.count == 0)
  {
    StepGood(s, NewSem(n));
    var t := Step(s, NewSem(n));
    RunGood(t, acts);
    RunBalanced(t, acts, |s.sems|);
  }

  /**
    * No barging: from a release that wakes a thread on, and whoever asks in between, no more units are taken or handed
    * over than are released anew; without a new release nobody gets one.
    */
  lemma NoBarging(s: Lib, i: nat, acts: seq<Act>)
    requires Good(s) && Enabled(s, Up(i)) && s.sems[i].waiters != []
    requires (StepGood(s, Up(i)); AllEnabled(Step(s, Up(i)), acts))
    ensures (StepGood(s, Up(i)); i < |Step(s, Up(i)).sems|)
    ensures var x := (StepGood(s, Up(i)); ObserveRun(Step(s, Up(i)), acts, i));
      x.taken + |x.woken| <= x.ups && (x.ups == 0 ==> x.taken == 0 && x.woken == [])
  {
    StepGood(s, Up(i));
    var t := Step(s, Up(i));
    RunGood(t, acts);
    RunBalanced(t, acts, i);
  }
}
