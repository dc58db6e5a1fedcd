/** The bounded buffer on the thread library: its FIFO run, from `uthread_start` to the return of the idle loop. */
module BufferOnLibrary {
  import Lib = LibRuns
  import opened Sched
  import opened Buffer

  // The semaphores, in the order in which they are made.
  const MUTEX: nat := 0
  const EMPTY: nat := 1
  const FULL: nat := 2

  /** A random batch size for every number of actions already taken, and who asks. */
  type Picks = p: (bool, nat) -> nat | forall producer, k :: 1 <= p(producer, k) <= SLOTS witness (_, _) => 1

  function Of(s: State, t: Tid): Worker { if t == PRODUCER then s.producer else s.consumer }

  /** The library is in the state that the two threads have brought it to. */
  ghost predicate Hosts(s: State, b: Lib.Lib) {
    && Inv(s) && Lib.Good(b) && !b.ended
    && b.sems == [s.mutex, s.empty, s.full]
    && b.next == 4
    && (PRODUCER !in b.live ==> s.producer.pc.Done?)
    && (CONSUMER !in b.live ==> s.consumer.pc.Done?)
  }

  /** The library call of the next action of thread `t`. */
  function Calls(s: State, t: Tid): seq<Lib.Act> {
    match Of(s, t).pc
    case Get => [Lib.Down(if t == PRODUCER then FULL else EMPTY)]
    case Lock => [Lib.Down(MUTEX)]
    case Unlock => [Lib.Up(MUTEX)]
    case Signal => [Lib.Up(if t == PRODUCER then EMPTY else FULL)]
    case _ => []
  }

  predicate Blocked(w: Worker) { w.pc.GetWait? || w.pc.LockWait? }

  lemma HostsFacts(s: State, b: Lib.Lib)
    requires Hosts(s, b)
    ensures Inv(s) && Shape(s) && Lib.Good(b) && !b.ended && |b.sems| == 3
  {
    hide Inv, Lib.Good;
    InvShape(s);
  }

  /** A blocked thread waits on its semaphore. */
  lemma BlockedWaits(s: State, b: Lib.Lib, t: Tid)
    requires Hosts(s, b) && (t == PRODUCER || t == CONSUMER) && Blocked(Of(s, t))
    ensures Lib.Waiting(b.sems, t) == 1 && Lib.Runnable(b.core, t) == 0
  {
    hide Tape, Plan, Lib.Good;
    var i := if Of(s, t).pc.LockWait? then MUTEX else if t == PRODUCER then FULL else EMPTY;
    assert t in b.sems[i].waiters;
    Lib.WaitsOnce(b, t, i);
  }

  /** Whoever waits in the library is a blocked thread of the buffer. */
  lemma WaitsBlocked(s: State, b: Lib.Lib, t: Tid, i: nat)
    requires Hosts(s, b) && i < |b.sems| && t in b.sems[i].waiters
    ensures (t == PRODUCER || t == CONSUMER) && Blocked(Of(s, t))
  {
    hide Tape, Plan, Lib.Good;
    assert i == MUTEX || i == EMPTY || i == FULL;
  }

  /** The thread that runs in the library is one of the two, and it is not blocked. */
  lemma CurrentFree(s: State, b: Lib.Lib)
    requires Hosts(s, b) && b.core.current != Lib.IDLE
    ensures var t := b.core.current; (t == PRODUCER || t == CONSUMER) && !Blocked(Of(s, t)) && t in b.live
  {
    var t := b.core.current;
    Lib.WhereIs(b, t);
    assert t in b.live && t < b.next;
    if Blocked(Of(s, t)) { BlockedWaits(s, b, t); }
  }

  // ---------------------------------------------------------------- one action

  function TurnOf(t: Tid, batch: nat): Turn { Turn(t == PRODUCER, batch) }

  lemma ProducerSems(s: State, b: Lib.Lib, batch: nat)
    requires Shape(s) && Ready(s.producer) && b.core.current == PRODUCER && b.sems == [s.mutex, s.empty, s.full]
    requires Lib.Good(b) && (Calls(s, PRODUCER) != [] ==> Lib.Enabled(b, Calls(s, PRODUCER)[0]))
    ensures var u := Produce(s, batch);
      && [u.mutex, u.empty, u.full]
         == (if Calls(s, PRODUCER) == [] then b.sems else Lib.Step(b, Calls(s, PRODUCER)[0]).sems)
      && (s.consumer.pc.Done? ==> u.consumer.pc.Done?)
  {
    hide Lib.Good, Clamp, Minus;
  }

  lemma ConsumerSems(s: State, b: Lib.Lib, batch: nat)
    requires Shape(s) && Ready(s.consumer) && b.core.current == CONSUMER && b.sems == [s.mutex, s.empty, s.full]
    requires Lib.Good(b) && (Calls(s, CONSUMER) != [] ==> Lib.Enabled(b, Calls(s, CONSUMER)[0]))
    ensures var u := Consume(s, batch);
      && [u.mutex, u.empty, u.full]
         == (if Calls(s, CONSUMER) == [] then b.sems else Lib.Step(b, Calls(s, CONSUMER)[0]).sems)
      && (s.producer.pc.Done? ==> u.producer.pc.Done?)
  {
    hide Lib.Good, Clamp, Minus;
  }

  /** One action of the running thread is what its call does to the library. */
  lemma ActionHosts(s: State, b: Lib.Lib, batch: nat)
    requires Hosts(s, b) && b.core.current in b.live && 1 <= batch <= SLOTS
    requires b.core.current == PRODUCER || b.core.current == CONSUMER
    requires Ready(Of(s, b.core.current))
    ensures var t := b.core.current;
      && Can(s, TurnOf(t, batch)) && Lib.AllEnabled(b, Calls(s, t))
      && Hosts(Step(s, TurnOf(t, batch)), Lib.Run(b, Calls(s, t)))
      && Lib.Run(b, Calls(s, t)).live == b.live
  {
    hide Inv, Lib.Good, Lib.Run, Lib.AllEnabled, Produce, Consume;
    HostsFacts(s, b);
    var t := b.core.current;
    StepInv(s, TurnOf(t, batch));
    if Calls(s, t) == [] { Lib.RunNone(b); } else { Lib.OneCall(b, Calls(s, t)[0]); }
    if t == PRODUCER { ProducerSems(s, b, batch); } else { ConsumerSems(s, b, batch); }
  }

  /** A thread that has finished exits. */
  lemma ExitHosts(s: State, b: Lib.Lib)
    requires Hosts(s, b) && b.core.current in b.live
    requires b.core.current == PRODUCER || b.core.current == CONSUMER
    requires Of(s, b.core.current).pc.Done?
    ensures Lib.Enabled(b, Lib.Exit) && Hosts(s, Lib.Step(b, Lib.Exit))
    ensures |Lib.Step(b, Lib.Exit).live| == |b.live| - 1
  {
    hide Inv;
    Lib.StepGood(b, Lib.Exit);
  }

  /** The idle thread gives way while another thread is ready. */
  lemma IdleHosts(s: State, b: Lib.Lib)
    requires Hosts(s, b) && b.core.current == Lib.IDLE && |b.core.ready| > 1
    ensures Lib.Enabled(b, Lib.Yield) && Hosts(s, Lib.Step(b, Lib.Yield))
  {
    hide Inv;
    Lib.StepGood(b, Lib.Yield);
  }

  // ---------------------------------------------------------------- the whole run

  /** The threads alive when the idle loop ends: with a limit of 0 the consumer is left, waiting. */
  function Left(maxcount: Limit): set<Tid> { if maxcount == 0 then {Lib.IDLE, CONSUMER} else {Lib.IDLE} }

  lemma Finish(s: State, b: Lib.Lib)
    requires Hosts(s, b) && b.core.current == Lib.IDLE && |b.core.ready| <= 1
    ensures Stuck(s) && b.live == Left(s.maxcount)
  {
    hide Inv, Lib.Good;
    HostsFacts(s, b);
    Lib.ReturnMeansDone(b);
    if Ready(s.producer) {
      var i := Lib.WaitPlace(b.sems, PRODUCER);
      WaitsBlocked(s, b, PRODUCER, i);
    }
    if Ready(s.consumer) {
      var i := Lib.WaitPlace(b.sems, CONSUMER);
      WaitsBlocked(s, b, CONSUMER, i);
    }
    WhenStuck(s);
    forall t: Tid | t in b.live && t != Lib.IDLE ensures t in Left(s.maxcount) {
      var i := Lib.WaitPlace(b.sems, t);
      WaitsBlocked(s, b, t, i);
    }
    Lib.IdleLives(b);
  }

  ghost function Work(s: State, b: Lib.Lib): nat
    requires Inv(s)
  {
    RankPositive(s);
    Rank(s) + |b.live|
  }

  lemma IdleLess(s: State, b: Lib.Lib)
    requires Hosts(s, b) && b.core.current == Lib.IDLE && |b.core.ready| > 1
    ensures Lib.Good(b) && Lib.Enabled(b, Lib.Yield)
    ensures var d := Lib.Step(b, Lib.Yield);
      Hosts(s, d) && Work(s, d) == Work(s, b) && Lib.IdleRank(d) < Lib.IdleRank(b)
  {
    hide Hosts, Lib.Good, Inv;
    HostsFacts(s, b);
    IdleHosts(s, b);
    Lib.QueuedOnce(b);
  }

  lemma ExitLess(s: State, b: Lib.Lib)
    requires Hosts(s, b) && b.core.current != Lib.IDLE && Of(s, b.core.current).pc.Done?
    ensures Lib.Good(b) && Lib.Enabled(b, Lib.Exit)
    ensures var d := Lib.Step(b, Lib.Exit); Hosts(s, d) && Work(s, d) < Work(s, b)
  {
    hide Hosts, Lib.Good, Inv;
    HostsFacts(s, b);
    CurrentFree(s, b);
    ExitHosts(s, b);
  }

  lemma ActionLess(s: State, b: Lib.Lib, batch: nat)
    requires Hosts(s, b) && b.core.current != Lib.IDLE && !Of(s, b.core.current).pc.Done? && 1 <= batch <= SLOTS
    ensures var t := b.core.current;
      && Can(s, TurnOf(t, batch)) && Lib.Good(b) && Lib.AllEnabled(b, Calls(s, t))
      && var u, d := Step(s, TurnOf(t, batch)), Lib.Run(b, Calls(s, t));
      && Hosts(u, d) && Work(u, d) < Work(s, b) && u.maxcount == s.maxcount
  {
    hide Hosts, Lib.Good, Inv, Lib.AllEnabled, Lib.Run, Rank, Step;
    HostsFacts(s, b);
    CurrentFree(s, b);
    ActionHosts(s, b, batch);
    StepInv(s, TurnOf(b.core.current, batch));
  }

  /**
    * The run that the library makes of producer and consumer when the `k`-th action draws batch size `picks(_, k)`:
    * whoever is current acts. The idle thread gives way or leaves its loop, a finished thread exits, any other performs
    * its next action. The turns in order, and all calls.
    */
  ghost function Play(s: State, b: Lib.Lib, picks: Picks, k: nat): (seq<Turn>, seq<Lib.Act>)
    requires Hosts(s, b)
    decreases Work(s, b), Lib.IdleRank(b)
  {
    var t := b.core.current;
    if t != Lib.IDLE then
      if Of(s, t).pc.Done? then
        ExitLess(s, b);
        var (turns, acts) := Play(s, Lib.Step(b, Lib.Exit), picks, k);
        (turns, [Lib.Exit] + acts)
      else
        var turn := TurnOf(t, picks(t == PRODUCER, k));
        ActionLess(s, b, turn.batch);
        var (turns, acts) := Play(Step(s, turn), Lib.Run(b, Calls(s, t)), picks, k + 1);
        ([turn] + turns, Calls(s, t) + acts)
    else if |b.core.ready| > 1 then
      IdleLess(s, b);
      var (turns, acts) := Play(s, Lib.Step(b, Lib.Yield), picks, k);
      (turns, [Lib.Yield] + acts)
    else
      ([], [Lib.Return])
  }

  /** What a run leaves behind. */
  ghost predicate PlaysOut(s: State, b: Lib.Lib, turns: seq<Turn>, acts: seq<Lib.Act>) {
    && Inv(s) && Possible(s, turns) && Stuck(Run(s, turns))
    && Lib.Good(b) && Lib.AllEnabled(b, acts)
    && Lib.Run(b, acts).ended && Lib.Run(b, acts).live == Left(s.maxcount)
  }

  lemma {:induction false} PlayEnds(s: State, b: Lib.Lib, picks: Picks, k: nat)
    requires Hosts(s, b)
    ensures PlaysOut(s, b, Play(s, b, picks, k).0, Play(s, b, picks, k).1)
    decreases Work(s, b), Lib.IdleRank(b)
  {
    hide Hosts, Inv, Lib.Good, Step, Rank, PlaysOut, Lib.AllEnabled, Lib.Run;
    HostsFacts(s, b);
    var t := b.core.current;
    if t != Lib.IDLE {
      if Of(s, t).pc.Done? {
        ExitLess(s, b);
        var d := Lib.Step(b, Lib.Exit);
        PlayEnds(s, d, picks, k);
        CallFirst(s, b, Lib.Exit, Play(s, d, picks, k).0, Play(s, d, picks, k).1);
      } else {
        var turn := TurnOf(t, picks(t == PRODUCER, k));
        ActionLess(s, b, turn.batch);
        var u, d := Step(s, turn), Lib.Run(b, Calls(s, t));
        PlayEnds(u, d, picks, k + 1);
        ActionFirst(s, b, turn, Calls(s, t), Play(u, d, picks, k + 1).0, Play(u, d, picks, k + 1).1);
      }
    } else if |b.core.ready| > 1 {
      IdleLess(s, b);
      var d := Lib.Step(b, Lib.Yield);
      PlayEnds(s, d, picks, k);
      CallFirst(s, b, Lib.Yield, Play(s, d, picks, k).0, Play(s, d, picks, k).1);
    } else {
      ReturnOnly(s, b);
    }
  }

  lemma CallFirst(s: State, b: Lib.Lib, a: Lib.Act, turns: seq<Turn>, acts: seq<Lib.Act>)
    requires Lib.Good(b) && Lib.Enabled(b, a) && PlaysOut(s, Lib.Step(b, a), turns, acts)
    ensures PlaysOut(s, b, turns, [a] + acts)
  {
    hide Lib.Good, Lib.Enabled, Lib.Step, Inv, Possible, Stuck, Lib.AllEnabled, Lib.Run;
    Lib.RunNext(b, a, acts);
  }

  lemma ActionFirst(s: State, b: Lib.Lib, turn: Turn, calls: seq<Lib.Act>, turns: seq<Turn>, acts: seq<Lib.Act>)
    requires Inv(s) && Can(s, turn) && Lib.Good(b) && Lib.AllEnabled(b, calls)
    requires PlaysOut(Step(s, turn), Lib.Run(b, calls), turns, acts)
    ensures PlaysOut(s, b, [turn] + turns, calls + acts)
  {
    hide Lib.Good, Inv, Stuck, Lib.AllEnabled, Lib.Run, Step;
    StepInv(s, turn);
    assert ([turn] + turns)[0] == turn && ([turn] + turns)[1..] == turns;
    Lib.RunJoin(b, calls, acts);
  }

  lemma ReturnOnly(s: State, b: Lib.Lib)
    requires Hosts(s, b) && b.core.current == Lib.IDLE && |b.core.ready| <= 1
    ensures PlaysOut(s, b, [], [Lib.Return])
  {
    hide Hosts, Inv, Lib.Good, Stuck, Lib.AllEnabled, Lib.Run;
    HostsFacts(s, b);
    Finish(s, b);
    Lib.OneCall(b, Lib.Return);
  }

  // ---------------------------------------------------------------- from the start

  /** The counts of the semaphores made before the start, and the calls until the producer has made the consumer. */
  const COUNTS: seq<nat> := [1, 0, SLOTS]
  const FIRST_CALLS: seq<Lib.Act> := [Lib.Yield, Lib.Yield, Lib.Create]

  /** The library when producer and consumer start. */
  function Started(): Lib.Lib {
    Lib.Lib(Core(PRODUCER, [Lib.IDLE, Lib.IDLE, CONSUMER]), [Sem(1, []), Sem(0, []), Sem(SLOTS, [])],
            {Lib.IDLE, PRODUCER, CONSUMER}, 4, false)
  }

  lemma StartedRun()
    ensures (Lib.InitGood(COUNTS); Lib.AllEnabled(Lib.Init(COUNTS), FIRST_CALLS))
    ensures Lib.Run(Lib.Init(COUNTS), FIRST_CALLS) == Started()
    ensures Lib.Good(Started())
  {
    hide Lib.Good, Lib.AllEnabled, Lib.Run;
    Lib.InitGood(COUNTS);
    var y, c := Lib.Yield, Lib.Create;
    var s0 := Lib.Init(COUNTS);
    Lib.StepGood(s0, y);
    var s1 := Lib.Step(s0, y);
    assert s1.core == Core(Lib.IDLE, [PRODUCER, Lib.IDLE]);
    Lib.StepGood(s1, y);
    var s2 := Lib.Step(s1, y);
    assert s2.core == Core(PRODUCER, [Lib.IDLE, Lib.IDLE]);
    Lib.OneCall(s2, c);
    assert Lib.Step(s2, c) == Started();
    Lib.RunNext(s1, y, [c]);
    Lib.RunNext(s0, y, [y] + [c]);
    assert [y] + ([y] + [c]) == FIRST_CALLS;
  }

  lemma StartedHosts(maxcount: Limit)
    requires Lib.Good(Started())
    ensures Hosts(Init(maxcount), Started())
  {
    InitInv(maxcount);
  }

  /** The whole run of the program: the turns of its two threads, and all calls from the start of the library on. */
  ghost function Program(maxcount: Limit, picks: Picks): (seq<Turn>, seq<Lib.Act>) {
    StartedRun();
    StartedHosts(maxcount);
    var (turns, acts) := Play(Init(maxcount), Started(), picks, 0);
    (turns, FIRST_CALLS + acts)
  }

  /**
    * The program on the library, for every limit and all batch sizes: `uthread_start` returns; all numbers are taken if
    * and only if the limit is not 1; the idle thread is alone alive, and the semaphores can be destroyed, if and only
    * if the limit is not 0.
    */
  lemma StartReturns(maxcount: Limit, picks: Picks)
    ensures (InitInv(maxcount); Possible(Init(maxcount), Program(maxcount, picks).0))
    ensures var t := Run(Init(maxcount), Program(maxcount, picks).0);
      && Stuck(t) && t.count == maxcount
      && (t.taken == Numbers(maxcount) <==> maxcount != 1)
      && (t.empty.waiters == [] && t.full.waiters == [] && t.mutex.waiters == [] <==> maxcount != 0)
    ensures (Lib.InitGood(COUNTS); Lib.AllEnabled(Lib.Init(COUNTS), Program(maxcount, picks).1))
    ensures var end := Lib.Run(Lib.Init(COUNTS), Program(maxcount, picks).1);
      end.ended && end.live == Left(maxcount) && (end.live == {Lib.IDLE} <==> maxcount != 0)
  {
    hide Inv, Hosts, Possible, Run, Rank, Lib.Run, Lib.AllEnabled, Lib.Good;
    InitInv(maxcount);
    Lib.InitGood(COUNTS);
    StartedRun();
    StartedHosts(maxcount);
    var (turns, acts) := Play(Init(maxcount), Started(), picks, 0);
    PlayEnds(Init(maxcount), Started(), picks, 0);
    Lib.RunJoin(Lib.Init(COUNTS), FIRST_CALLS, acts);
    BufferCorrect(maxcount, turns);
    RunInv(Init(maxcount), turns);
    Waiters(Run(Init(maxcount), turns));
    assert CONSUMER in Left(0);
  }

  lemma Waiters(s: State)
    requires Inv(s) && Stuck(s)
    ensures s.empty.waiters == [] && s.full.waiters == [] && s.mutex.waiters == [] <==> s.maxcount != 0
  {
    hide Tape;
    WhenStuck(s);
  }
}
