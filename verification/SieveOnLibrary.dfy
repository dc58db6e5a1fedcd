/** The sieve on the thread library: its one FIFO run, from `uthread_start` to the return of the idle loop. */
module SieveOnLibrary {
  import Lib = LibRuns
  import opened Primes
  import opened Streams
  import opened Sched
  import opened Sieve
  import opened SieveInvariant
  import opened SieveProgress
  import opened SieveRuns
  import opened SieveSafety

  /** Semaphore `2 * c` of the library is `produce` of channel `c`, the next one is `consume`. */
  ghost predicate SemsMatch(chans: seq<Chan>, sems: seq<Sem>) {
    && |sems| == 2 * |chans|
    && forall c | 0 <= c < |chans| :: sems[2 * c] == chans[c].produce && sems[2 * c + 1] == chans[c].consume
  }

  /** Threads are numbered as they are created; those no longer alive have finished. */
  ghost predicate ThreadsMatch(s: State, b: Lib.Lib) {
    && b.next == |s.threads| + 2
    && forall j | 0 <= j < |s.threads| && Id(s, j) !in b.live :: s.threads[j].pc.Done?
  }

  /** The library is in the state that the sieve's threads have brought it to; a switch happens only when one must. */
  ghost predicate Hosts(s: State, b: Lib.Lib) {
    && Inv(s) && Lib.Good(b) && !b.ended
    && SemsMatch(s.chans, b.sems) && ThreadsMatch(s, b)
    && 0 <= Position(s, s.running) < |s.threads|
    && (b.core.current == s.running || !Ready(s, Position(s, s.running)))
  }

  /** The library calls of the next action of thread `j`. */
  function Calls(s: State, j: nat): seq<Lib.Act>
    requires Shape(s) && Ready(s, j)
  {
    match s.threads[j].pc
    case Take => [Lib.Down(2 * (j - 1) + 1)]
    case Ack => [Lib.Up(2 * (j - 1))]
    case Grow => [Lib.NewSem(0), Lib.NewSem(0), Lib.Create]
    case Offer => [Lib.Up(2 * j + 1)]
    case Confirm => [Lib.Down(2 * j)]
    case _ => []
  }

  // ---------------------------------------------------------------- who is where

  /** A blocked thread waits on the semaphore of its channel. */
  lemma BlockedWaits(s: State, b: Lib.Lib, j: nat)
    requires Hosts(s, b) && j < |s.threads| && Blocked(s.threads[j].pc)
    ensures Lib.Waiting(b.sems, Id(s, j)) == 1 && Lib.Runnable(b.core, Id(s, j)) == 0
  {
    hide Offers, Takes, EndsOnce, RoleOk, Shows, PrintedOk, Lib.Good;
    assert PcFits(s.threads[j]);
    var c := if s.threads[j].pc.TakeWait? then j - 1 else j;
    Facts(s, c);
    Kinds(s, c);
    var i := if s.threads[j].pc.TakeWait? then 2 * c + 1 else 2 * c;
    Lib.WaitsOnce(b, Id(s, j), i);
  }

  /** Whoever waits in the library is a blocked thread of the sieve. */
  lemma WaitsBlocked(s: State, b: Lib.Lib, t: Tid, i: nat)
    requires Hosts(s, b) && i < |b.sems| && t in b.sems[i].waiters
    ensures 0 <= Position(s, t) < |s.threads| && Blocked(s.threads[Position(s, t)].pc)
  {
    hide Offers, Takes, EndsOnce, RoleOk, Shows, PrintedOk;
    var c := i / 2;
    assert i == 2 * c || i == 2 * c + 1;
    Facts(s, c);
    Kinds(s, c);
  }

  /** The thread that runs in the library is one of the sieve's, and it is not blocked. */
  lemma CurrentFree(s: State, b: Lib.Lib)
    requires Hosts(s, b) && b.core.current != Lib.IDLE
    ensures var j := Position(s, b.core.current);
      0 <= j < |s.threads| && Id(s, j) == b.core.current && !Blocked(s.threads[j].pc) && b.core.current in b.live
  {
    var t := b.core.current;
    Lib.WhereIs(b, t);
    var j := Position(s, t);
    assert t in b.live && t < b.next;
    assert 0 <= j < |s.threads| && Id(s, j) == t;
    if Blocked(s.threads[j].pc) { BlockedWaits(s, b, j); }
  }

  // ---------------------------------------------------------------- one action of the sieve

  lemma ProducePut(chans: seq<Chan>, sems: seq<Sem>, c: nat, ch: Chan)
    requires SemsMatch(chans, sems) && c < |chans| && ch.consume == chans[c].consume
    ensures SemsMatch(chans[c := ch], sems[2 * c := ch.produce])
  {
  }

  lemma ConsumePut(chans: seq<Chan>, sems: seq<Sem>, c: nat, ch: Chan)
    requires SemsMatch(chans, sems) && c < |chans| && ch.produce == chans[c].produce
    ensures SemsMatch(chans[c := ch], sems[2 * c + 1 := ch.consume])
  {
  }

  /** Threads that have finished stay finished, and no numbers change. */
  lemma StillThere(s: State, j: nat, b: Lib.Lib, d: Lib.Lib)
    requires Inv(s) && Ready(s, j) && !s.threads[j].pc.Grow? && ThreadsMatch(s, b)
    requires d.live == b.live && d.next == b.next
    ensures ThreadsMatch(Step(s, j), d)
    ensures |Step(s, j).threads| == |s.threads|
  {
    hide Act, Inv;
    ActNear(s, j);
  }

  lemma TakeHosts(s: State, b: Lib.Lib, j: nat)
    requires Hosts(s, b) && j < |s.threads| && Id(s, j) == b.core.current != Lib.IDLE && s.threads[j].pc.Take?
    ensures Lib.AllEnabled(b, Calls(s, j)) && Hosts(Step(s, j), Lib.Run(b, Calls(s, j)))
  {
    hide Act, Lib.Good, Role, Link, PrintedOk;
    assert PcFits(s.threads[j]);
    var c := j - 1;
    var a := Lib.Down(2 * c + 1);
    Lib.OneCall(b, a);
    StepInv(s, j);
    TakeAround(s, c);
    StillThere(s, j, b, Lib.Step(b, a));
    var (m, taken) := Acquire(s.chans[c].consume, Id(s, j));
    ConsumePut(s.chans, b.sems, c, s.chans[c].(consume := m));
  }

  lemma ConfirmHosts(s: State, b: Lib.Lib, j: nat)
    requires Hosts(s, b) && j < |s.threads| && Id(s, j) == b.core.current != Lib.IDLE && s.threads[j].pc.Confirm?
    ensures Lib.AllEnabled(b, Calls(s, j)) && Hosts(Step(s, j), Lib.Run(b, Calls(s, j)))
  {
    hide Act, Lib.Good, Role, Link, PrintedOk, AfterConfirm;
    assert PcFits(s.threads[j]);
    var a := Lib.Down(2 * j);
    Lib.OneCall(b, a);
    StepInv(s, j);
    Kinds(s, j);
    ConfirmAround(s, j);
    StillThere(s, j, b, Lib.Step(b, a));
    var (m, taken) := Acquire(s.chans[j].produce, Id(s, j));
    ProducePut(s.chans, b.sems, j, s.chans[j].(produce := m));
  }

  lemma AckHosts(s: State, b: Lib.Lib, j: nat)
    requires Hosts(s, b) && j < |s.threads| && Id(s, j) == b.core.current != Lib.IDLE && s.threads[j].pc.Ack?
    ensures Lib.AllEnabled(b, Calls(s, j)) && Hosts(Step(s, j), Lib.Run(b, Calls(s, j)))
  {
    hide Act, Lib.Good, Role, PrintedOk, AfterConfirm, AfterAck, Offers, Takes, RoleOk, Shows;
    assert PcFits(s.threads[j]);
    var c := j - 1;
    var a := Lib.Up(2 * c);
    Lib.OneCall(b, a);
    StepInv(s, j);
    Facts(s, c);
    Kinds(s, c);
    AckAround(s, c);
    StillThere(s, j, b, Lib.Step(b, a));
    var (m, _) := Release(s.chans[c].produce);
    ProducePut(s.chans, b.sems, c, s.chans[c].(produce := m));
  }

  lemma OfferHosts(s: State, b: Lib.Lib, j: nat)
    requires Hosts(s, b) && j < |s.threads| && Id(s, j) == b.core.current != Lib.IDLE && s.threads[j].pc.Offer?
    ensures Lib.AllEnabled(b, Calls(s, j)) && Hosts(Step(s, j), Lib.Run(b, Calls(s, j)))
  {
    hide Act, Lib.Good, Role, PrintedOk, AfterConfirm, Offers, Takes, RoleOk, Shows;
    assert PcFits(s.threads[j]);
    var a := Lib.Up(2 * j + 1);
    Lib.OneCall(b, a);
    StepInv(s, j);
    Facts(s, j);
    Kinds(s, j);
    OfferAround(s, j);
    StillThere(s, j, b, Lib.Step(b, a));
    var (m, _) := Release(s.chans[j].consume);
    ConsumePut(s.chans, b.sems, j, s.chans[j].(consume := m));
  }

  /** Actions that call nothing leave the semaphores alone. */
  lemma QuietHosts(s: State, b: Lib.Lib, j: nat)
    requires Hosts(s, b) && j < |s.threads| && Id(s, j) == b.core.current != Lib.IDLE
    requires var pc := s.threads[j].pc; pc.Read? || pc.Put? || pc.Close?
    ensures Lib.AllEnabled(b, Calls(s, j)) && Hosts(Step(s, j), Lib.Run(b, Calls(s, j)))
  {
    hide Act, Lib.Good, Role, Link, PrintedOk, Outgoing;
    assert PcFits(s.threads[j]);
    StepInv(s, j);
    StillThere(s, j, b, b);
    Lib.RunNone(b);
    match s.threads[j].pc
    case Read => ReadAround(s, j - 1);
    case Put => PutAround(s, j);
    case Close => CloseAround(s, j - 1);
  }

  lemma GrowHosts(s: State, b: Lib.Lib, j: nat)
    requires Hosts(s, b) && j < |s.threads| && Id(s, j) == b.core.current != Lib.IDLE && s.threads[j].pc.Grow?
    ensures Lib.AllEnabled(b, Calls(s, j)) && Hosts(Step(s, j), Lib.Run(b, Calls(s, j)))
    ensures Lib.Run(b, Calls(s, j)).live == b.live + {b.next}
  {
    hide Act, Lib.Good, Role, Link, PrintedOk, Lib.AllEnabled, Lib.Run;
    assert PcFits(s.threads[j]);
    StepInv(s, j);
    GrowShape(s, j - 1);
    GrowCalls(b);
    GrownSems(s.chans, b.sems);
  }

  lemma GrowCalls(b: Lib.Lib)
    requires Lib.Good(b) && !b.ended && b.core.current != Lib.IDLE
    ensures var calls := [Lib.NewSem(0), Lib.NewSem(0), Lib.Create];
      && Lib.AllEnabled(b, calls) && Lib.Good(Lib.Run(b, calls))
      && Lib.Run(b, calls) == b.(core := Unblock(b.core, b.next), sems := b.sems + [NO_UNIT] + [NO_UNIT],
                                 live := b.live + {b.next}, next := b.next + 1)
  {
    hide Lib.Good, Lib.AllEnabled, Lib.Run;
    var a, c := Lib.NewSem(0), Lib.Create;
    Lib.StepGood(b, a);
    var b1 := Lib.Step(b, a);
    Lib.StepGood(b1, a);
    var b2 := Lib.Step(b1, a);
    Lib.OneCall(b2, c);
    Lib.RunNext(b1, a, [c]);
    Lib.RunNext(b, a, [a, c]);
    assert [a] + [c] == [a, c] && [a] + [a, c] == [a, a, c];
  }

  lemma GrownSems(chans: seq<Chan>, sems: seq<Sem>)
    requires SemsMatch(chans, sems)
    ensures SemsMatch(chans + [FRESH], sems + [NO_UNIT] + [NO_UNIT])
  {
  }

  /** One action of the running thread is what its calls do to the library, and keeps to cooperative scheduling. */
  lemma ActionHosts(s: State, b: Lib.Lib, j: nat)
    requires Hosts(s, b) && j < |s.threads| && Id(s, j) == b.core.current != Lib.IDLE && Ready(s, j)
    ensures MayRun(s, j) && Lib.AllEnabled(b, Calls(s, j)) && Hosts(Step(s, j), Lib.Run(b, Calls(s, j)))
    ensures |Lib.Run(b, Calls(s, j)).live| <= |b.live| + if s.threads[j].pc.Grow? then 1 else 0
  {
    hide Hosts, Act, Inv, Lib.Good;
    HostsShape(s, b);
    match s.threads[j].pc
    case Take => TakeHosts(s, b, j);
    case Read => QuietHosts(s, b, j);
    case Ack => AckHosts(s, b, j);
    case Grow => GrowHosts(s, b, j);
    case Put => QuietHosts(s, b, j);
    case Offer => OfferHosts(s, b, j);
    case Confirm => ConfirmHosts(s, b, j);
    case Close => QuietHosts(s, b, j);
  }

  lemma HostsShape(s: State, b: Lib.Lib)
    requires Hosts(s, b)
    ensures Shape(s) && Inv(s) && Lib.Good(b) && !b.ended
    ensures b.core.current == s.running || (0 <= Position(s, s.running) && !Ready(s, Position(s, s.running)))
  {
  }

  /** A thread that has finished exits. */
  lemma ExitHosts(s: State, b: Lib.Lib, j: nat)
    requires Hosts(s, b) && j < |s.threads| && Id(s, j) == b.core.current != Lib.IDLE && s.threads[j].pc.Done?
    requires b.core.current in b.live
    ensures Lib.Enabled(b, Lib.Exit) && Hosts(s, Lib.Step(b, Lib.Exit))
    ensures |Lib.Step(b, Lib.Exit).live| == |b.live| - 1
  {
    Lib.StepGood(b, Lib.Exit);
  }

  /** The idle thread gives way while another thread is ready. */
  lemma IdleHosts(s: State, b: Lib.Lib)
    requires Hosts(s, b) && b.core.current == Lib.IDLE && |b.core.ready| > 1
    ensures Lib.Enabled(b, Lib.Yield) && Hosts(s, Lib.Step(b, Lib.Yield))
  {
    Lib.StepGood(b, Lib.Yield);
  }

  // ---------------------------------------------------------------- the whole run

  const SOURCE: Tid := 3

  /** The threads alive when the idle loop ends: the idle thread, and at the largest limit the source, which waits. */
  function Left(max: Limit): set<Tid> { if max == 0xFFFF_FFFF then {Lib.IDLE, SOURCE} else {Lib.IDLE} }

  /** When the idle thread leaves its loop, no thread of the sieve can act any more. */
  lemma Finish(s: State, b: Lib.Lib)
    requires Hosts(s, b) && b.core.current == Lib.IDLE && |b.core.ready| <= 1
    ensures Stuck(s) && b.live == Left(s.max)
  {
    hide Inv, Lib.Good;
    HostsShape(s, b);
    Lib.ReturnMeansDone(b);
    forall j: nat | j < |s.threads| ensures !Ready(s, j) {
      var t := Id(s, j);
      assert Position(s, t) == j;
      if t in b.live {
        var i := Lib.WaitPlace(b.sems, t);
        WaitsBlocked(s, b, t, i);
      }
    }
    WhenStuck(s);
    forall t: Tid | t in b.live && t != Lib.IDLE ensures t in Left(s.max) {
      var i := Lib.WaitPlace(b.sems, t);
      WaitsBlocked(s, b, t, i);
      assert Position(s, t) == 0;
    }
    Lib.IdleLives(b);
    if s.max == 0xFFFF_FFFF { SourceLives(s, b); }
  }

  lemma SourceLives(s: State, b: Lib.Lib)
    requires Hosts(s, b) && !s.threads[0].pc.Done?
    ensures SOURCE in b.live
  {
    hide Inv, Lib.Good;
    HostsShape(s, b);
    assert Id(s, 0) == SOURCE;
  }

  lemma NextAction(s: State, j: nat, order: seq<nat>)
    requires Inv(s) && MayRun(s, j) && Inv(Step(s, j)) && Possible(Step(s, j), order) && Cooperative(Step(s, j), order)
    ensures Possible(s, [j] + order) && Cooperative(s, [j] + order) && Run(s, [j] + order) == Run(Step(s, j), order)
  {
    assert ([j] + order)[0] == j && ([j] + order)[1..] == order;
  }

  function Work(s: State, b: Lib.Lib): nat { 2 * Total(s, |s.threads|) + |b.live| }

  lemma IdleLess(s: State, b: Lib.Lib)
    requires Hosts(s, b) && b.core.current == Lib.IDLE && |b.core.ready| > 1
    ensures Lib.Good(b) && Lib.Enabled(b, Lib.Yield)
    ensures var d := Lib.Step(b, Lib.Yield);
      Hosts(s, d) && Work(s, d) == Work(s, b) && Lib.IdleRank(d) < Lib.IdleRank(b)
  {
    hide Hosts, Lib.Good, Total;
    HostsShape(s, b);
    IdleHosts(s, b);
    Lib.QueuedOnce(b);
  }

  lemma ExitLess(s: State, b: Lib.Lib)
    requires Hosts(s, b) && b.core.current != Lib.IDLE
    requires var j := Position(s, b.core.current); 0 <= j < |s.threads| && s.threads[j].pc.Done?
    ensures Lib.Good(b) && Lib.Enabled(b, Lib.Exit)
    ensures var d := Lib.Step(b, Lib.Exit); Hosts(s, d) && Work(s, d) < Work(s, b)
  {
    hide Hosts, Lib.Good, Total;
    HostsShape(s, b);
    CurrentFree(s, b);
    ExitHosts(s, b, Position(s, b.core.current));
  }

  lemma ActionLess(s: State, b: Lib.Lib, j: nat)
    requires Hosts(s, b) && j < |s.threads| && Id(s, j) == b.core.current != Lib.IDLE && Ready(s, j)
    ensures Inv(s) && MayRun(s, j) && Lib.Good(b) && Lib.AllEnabled(b, Calls(s, j))
    ensures var t, d := Step(s, j), Lib.Run(b, Calls(s, j));
      Hosts(t, d) && Work(t, d) < Work(s, b) && t.max == s.max
  {
    hide Hosts, Lib.Good, Total, Inv, Act, MayRun, Lib.AllEnabled, Lib.Run;
    HostsShape(s, b);
    ActionHosts(s, b, j);
    StepShrinks(s, j);
    SameLimit(s, j);
  }

  /**
    * The run that the library makes of the sieve: whoever is current acts. The idle thread gives way or leaves its
    * loop, a finished thread exits, any other performs its next action. The sieve's actions in order, and all calls.
    */
  ghost function Play(s: State, b: Lib.Lib): (seq<nat>, seq<Lib.Act>)
    requires Hosts(s, b)
    decreases Work(s, b), Lib.IdleRank(b)
  {
    if b.core.current != Lib.IDLE then
      CurrentFree(s, b);
      var j := Position(s, b.core.current);
      if s.threads[j].pc.Done? then
        ExitLess(s, b);
        var (order, acts) := Play(s, Lib.Step(b, Lib.Exit));
        (order, [Lib.Exit] + acts)
      else
        ActionLess(s, b, j);
        var (order, acts) := Play(Step(s, j), Lib.Run(b, Calls(s, j)));
        ([j] + order, Calls(s, j) + acts)
    else if |b.core.ready| > 1 then
      IdleLess(s, b);
      var (order, acts) := Play(s, Lib.Step(b, Lib.Yield));
      (order, [Lib.Yield] + acts)
    else
      ([], [Lib.Return])
  }

  /** What a run leaves behind. */
  ghost predicate PlaysOut(s: State, b: Lib.Lib, order: seq<nat>, acts: seq<Lib.Act>) {
    && Inv(s) && Possible(s, order) && Cooperative(s, order) && Stuck(Run(s, order))
    && Lib.Good(b) && Lib.AllEnabled(b, acts)
    && Lib.Run(b, acts).ended && Lib.Run(b, acts).live == Left(s.max)
  }

  lemma {:induction false} PlayEnds(s: State, b: Lib.Lib)
    requires Hosts(s, b)
    ensures PlaysOut(s, b, Play(s, b).0, Play(s, b).1)
    decreases Work(s, b), Lib.IdleRank(b)
  {
    hide Hosts, Inv, Lib.Good, Act, Step, Total, PlaysOut, MayRun, Lib.AllEnabled, Lib.Run;
    HostsShape(s, b);
    if b.core.current != Lib.IDLE {
      CurrentFree(s, b);
      var j := Position(s, b.core.current);
      if s.threads[j].pc.Done? {
        ExitLess(s, b);
        var d := Lib.Step(b, Lib.Exit);
        PlayEnds(s, d);
        CallFirst(s, b, Lib.Exit, Play(s, d).0, Play(s, d).1);
      } else {
        ActionLess(s, b, j);
        var t, d := Step(s, j), Lib.Run(b, Calls(s, j));
        PlayEnds(t, d);
        ActionFirst(s, b, j, Play(t, d).0, Play(t, d).1);
      }
    } else if |b.core.ready| > 1 {
      IdleLess(s, b);
      var d := Lib.Step(b, Lib.Yield);
      PlayEnds(s, d);
      CallFirst(s, b, Lib.Yield, Play(s, d).0, Play(s, d).1);
    } else {
      ReturnOnly(s, b);
    }
  }

  lemma CallFirst(s: State, b: Lib.Lib, a: Lib.Act, order: seq<nat>, acts: seq<Lib.Act>)
    requires Lib.Good(b) && Lib.Enabled(b, a) && PlaysOut(s, Lib.Step(b, a), order, acts)
    ensures PlaysOut(s, b, order, [a] + acts)
  {
    hide Lib.Good, Lib.Enabled, Lib.Step, Inv, Possible, Cooperative, Stuck, Lib.AllEnabled, Lib.Run;
    Lib.RunNext(b, a, acts);
  }

  lemma ActionFirst(s: State, b: Lib.Lib, j: nat, order: seq<nat>, acts: seq<Lib.Act>)
    requires Inv(s) && MayRun(s, j) && Lib.Good(b) && Lib.AllEnabled(b, Calls(s, j))
    requires PlaysOut(Step(s, j), Lib.Run(b, Calls(s, j)), order, acts)
    ensures PlaysOut(s, b, [j] + order, Calls(s, j) + acts)
  {
    hide Lib.Good, Inv, Possible, Cooperative, Stuck, Lib.AllEnabled, Lib.Run, Act, Calls;
    InvShape(s);
    SameLimit(s, j);
    NextAction(s, j, order);
    Lib.RunJoin(b, Calls(s, j), acts);
  }

  lemma ReturnOnly(s: State, b: Lib.Lib)
    requires Hosts(s, b) && b.core.current == Lib.IDLE && |b.core.ready| <= 1
    ensures PlaysOut(s, b, [], [Lib.Return])
  {
    hide Hosts, Inv, Lib.Good, Stuck, Lib.AllEnabled, Lib.Run, Possible, Cooperative;
    HostsShape(s, b);
    Finish(s, b);
    EmptyRun(s);
    Lib.OneCall(b, Lib.Return);
  }

  lemma EmptyRun(s: State)
    requires Inv(s)
    ensures Possible(s, []) && Cooperative(s, []) && Run(s, []) == s
  {
  }

  // ---------------------------------------------------------------- from the start

  /** The calls until the sink has made channel and source: the idle thread gives way, first to itself. */
  const FIRST_CALLS: seq<Lib.Act> := [Lib.Yield, Lib.Yield, Lib.NewSem(0), Lib.NewSem(0), Lib.Create]

  /** The whole run of the program: the sieve's actions, and all calls from the start of the library on. */
  ghost function Program(max: Limit): (seq<nat>, seq<Lib.Act>) {
    StartedRun();
    StartedHosts(max);
    var (order, acts) := Play(Init(max), Started());
    (order, FIRST_CALLS + acts)
  }

  /**
    * The program on the library, for every limit: `uthread_start` returns after all primes up to the limit are printed.
    * Every thread of the sieve has finished, and the idle thread is alone alive, if and only if the limit is not the
    * largest; then the source is left. Below the largest limit no freed memory was used.
    */
  lemma StartReturns(max: Limit)
    ensures (InitInv(max); Possible(Init(max), Program(max).0) && Cooperative(Init(max), Program(max).0))
    ensures var t := Run(Init(max), Program(max).0);
      && Stuck(t) && t.printed == Shown(PrimesUpTo(max))
      && (AllDone(t) <==> max != 0xFFFF_FFFF)
    ensures max != 0xFFFF_FFFF ==> !TouchesFreed(Init(max), Program(max).0)
    ensures (Lib.InitGood([]); Lib.AllEnabled(Lib.Init([]), Program(max).1))
    ensures var end := Lib.Run(Lib.Init([]), Program(max).1);
      end.ended && end.live == Left(max) && (end.live == {Lib.IDLE} <==> max != 0xFFFF_FFFF)
  {
    hide Inv, Hosts, Possible, Cooperative, Run, TouchesFreed, AllDone, Stuck, PrimesUpTo, Total;
    hide Lib.Run, Lib.AllEnabled, Lib.Good;
    InitInv(max);
    Lib.InitGood([]);
    StartedRun();
    StartedHosts(max);
    var (order, acts) := Play(Init(max), Started());
    PlayEnds(Init(max), Started());
    Lib.RunJoin(Lib.Init([]), FIRST_CALLS, acts);
    SieveCorrect(max, order);
    CalmStart(max);
    CooperativeRun(Init(max), order);
    assert SOURCE in Left(0xFFFF_FFFF);
  }

  lemma CalmStart(max: Limit)
    ensures Calm(Init(max))
  {
  }

  /** The library when the sieve starts. */
  function Started(): Lib.Lib {
    Lib.Lib(Core(SINK, [Lib.IDLE, Lib.IDLE, 3]), [NO_UNIT, NO_UNIT], {Lib.IDLE, SINK, 3}, 4, false)
  }

  lemma StartedRun()
    ensures (Lib.InitGood([]); Lib.AllEnabled(Lib.Init([]), FIRST_CALLS))
    ensures Lib.Run(Lib.Init([]), FIRST_CALLS) == Started()
    ensures Lib.Good(Started())
  {
    hide Lib.Good, Lib.AllEnabled, Lib.Run;
    Lib.InitGood([]);
    var y, calls := Lib.Yield, [Lib.NewSem(0), Lib.NewSem(0), Lib.Create];
    var s0 := Lib.Init([]);
    Lib.StepGood(s0, y);
    var s1 := Lib.Step(s0, y);
    assert s1.core == Core(Lib.IDLE, [SINK, Lib.IDLE]);
    Lib.StepGood(s1, y);
    var s2 := Lib.Step(s1, y);
    assert s2.core == Core(SINK, [Lib.IDLE, Lib.IDLE]);
    GrowCalls(s2);
    assert Lib.Run(s2, calls) == Started();
    Lib.RunNext(s1, y, calls);
    Lib.RunNext(s0, y, [y] + calls);
    assert [y] + ([y] + calls) == FIRST_CALLS;
  }

  lemma StartedHosts(max: Limit)
    requires Lib.Good(Started())
    ensures Hosts(Init(max), Started())
  {
    InitInv(max);
  }
}
