/** On the FIFO scheduler the sieve uses no freed memory, whatever the limit: the source is ahead of its reader. */
module SieveFifo {
  import opened Streams
  import opened Sched
  import opened Sieve
  import opened SieveInvariant
  import opened SieveProgress
  import opened SieveRuns
  import opened SieveSafety
  import opened SieveOnLibrary

  /** Some `x` is in front of some `y`. */
  ghost predicate Before(q: seq<Tid>, x: Tid, y: Tid) { exists a, b :: 0 <= a < b < |q| && q[a] == x && q[b] == y }

  /** The ready queue grows at its end; the running thread goes on, or the head of the queue runs. */
  ghost predicate Flows(c: Core, d: Core) {
    || (d.current == c.current && c.ready <= d.ready)
    || (c.ready != [] && d.current == c.ready[0] && c.ready[1..] <= d.ready)
  }

  lemma BeforeFlows(c: Core, d: Core, x: Tid, y: Tid)
    requires Before(c.ready, x, y) && Flows(c, d)
    ensures d.current == x || Before(d.ready, x, y)
  {
    var a, b :| 0 <= a < b < |c.ready| && c.ready[a] == x && c.ready[b] == y;
    if d.current == c.current && c.ready <= d.ready {
      assert d.ready[a] == x && d.ready[b] == y;
    } else if a > 0 {
      assert c.ready[1..][a - 1] == x && c.ready[1..][b - 1] == y;
      assert d.ready[a - 1] == x && d.ready[b - 1] == y;
    }
  }

  // ---------------------------------------------------------------- the second marker

  /** The source is about to send its second marker. */
  predicate AtRisk(s: State) {
    s.max == 0xFFFF_FFFF && s.threads != [] && s.threads[0].Source? && s.threads[0].i > s.max && Using(s.threads[0].pc)
  }

  /** The reader of the first channel is on its way from the first marker to closing the channel. */
  predicate Passing(pc: Pc) { pc.Put? || pc.Offer? || pc.Confirm? || pc.ConfirmWait? || pc.Close? }

  /** Then the reader is not yet gone, and before it can close the channel the source runs. */
  ghost predicate Queued(s: State, b: Lib.Lib) {
    AtRisk(s) ==>
      && |s.threads| > 2 && Passing(s.threads[1].pc)
      && (b.core.current == SOURCE ||
          (s.threads[0].pc.Put? && (s.threads[1].pc.Close? ==> Before(b.core.ready, SOURCE, Id(s, 1)))))
  }

  /** While the second marker is still to be stored, its reader has taken the first one, and is a filter. */
  lemma RiskFacts(s: State)
    requires Inv(s) && AtRisk(s) && s.threads[0].pc.Put?
    ensures |s.threads| > 2 && s.threads[1].Filter?
    ensures Passing(s.threads[1].pc) && !s.threads[1].pc.Close? ==> s.threads[1].value == END
  {
    hide Offers, Takes, Pass, Keeps, PrintedOk;
    Facts(s, 0);
    Kinds(s, 0);
    Sizes(s.max);
  }

  /** The risk begins when the reader acknowledges the first marker; it goes on to pass it on. */
  lemma NewRisk(s: State, j: nat)
    requires Inv(s) && Ready(s, j) && Calm(s) && !AtRisk(s) && AtRisk(Step(s, j))
    ensures |Step(s, j).threads| == |s.threads| > 2
    ensures j == 1 && Step(s, j).threads[0].pc.Put? && Step(s, j).threads[1].pc.Put?
  {
    hide Offers, Takes, Pass, PrintedOk, Act;
    assert PcFits(s.threads[j]);
    SameLimit(s, j);
    Facts(s, 0);
    Kinds(s, 0);
    Sizes(s.max);
    if s.threads[j].pc.Grow? {
      GrowShape(s, j - 1);
    } else {
      ActNear(s, j);
      SourceOwn(s, j);
    }
    AckAround(s, 0);
  }

  lemma SourceOwn(s: State, j: nat)
    requires Inv(s) && Ready(s, j) && Calm(s)
    ensures j == 0 ==> |Act(s, 0).threads| == |s.threads|
    ensures j == 0 && s.threads[0].pc.Put? ==> Act(s, 0).threads[0] == Move(s.threads[0], Offer)
    ensures j == 0 && s.threads[0].pc.Offer? ==> Act(s, 0).threads[0] == Move(s.threads[0], Confirm)
    ensures j == 0 && s.threads[0].pc.Confirm? ==> Act(s, 0).threads[0] == Move(s.threads[0], ConfirmWait)
  {
    hide Act, Offers, Takes, Role, PrintedOk;
    assert Link(s, 0);
    if j == 0 {
      match s.threads[0].pc
      case Put => PutAround(s, 0);
      case Offer => OfferAround(s, 0);
      case Confirm => ConfirmAround(s, 0);
    }
  }

  // ---------------------------------------------------------------- the library's side

  /** A source that is neither blocked nor finished nor running is in the ready queue. */
  lemma SourceIsReady(s: State, b: Lib.Lib)
    requires Hosts(s, b) && Ready(s, 0) && b.core.current != SOURCE
    ensures SOURCE in b.core.ready
  {
    hide Inv, Lib.Good, Lib.Census;
    HostsShape(s, b);
    assert Id(s, 0) == SOURCE && Position(s, SOURCE) == 0;
    SourceLives(s, b);
    Lib.WhereIs(b, SOURCE);
    if Lib.Waiting(b.sems, SOURCE) > 0 {
      var i := Lib.WaitPlace(b.sems, SOURCE);
      WaitsBlocked(s, b, SOURCE, i);
    }
    Lib.Found(b.core.ready, SOURCE);
  }

  /** The running thread is not in the ready queue. */
  lemma CurrentNotReady(s: State, b: Lib.Lib)
    requires Hosts(s, b) && b.core.current != Lib.IDLE
    ensures b.core.current !in b.core.ready
  {
    hide Inv, Lib.Good, Lib.Census;
    HostsShape(s, b);
    var t := b.core.current;
    Lib.WhereIs(b, t);
    if t in b.core.ready { Lib.Occurs(b.core.ready, t); }
  }

  /** What the calls of an action do to the scheduler. */
  lemma ActionFlows(s: State, b: Lib.Lib, j: nat)
    requires Hosts(s, b) && j < |s.threads| && Id(s, j) == b.core.current != Lib.IDLE && Ready(s, j)
    ensures Lib.AllEnabled(b, Calls(s, j))
    ensures var d := Lib.Run(b, Calls(s, j)).core; var pc := s.threads[j].pc;
      && Flows(b.core, d)
      && (pc.Put? || pc.Offer? || pc.Ack? ==> d.current == b.core.current)
      && (pc.Ack? && s.threads[j - 1].pc.ConfirmWait? ==> d.ready == b.core.ready + [Id(s, j - 1)])
  {
    hide Act, Offers, Takes, Lib.Good, Lib.Run, Lib.AllEnabled, RoleOk, PrintedOk;
    ActionHosts(s, b, j);
    HostsShape(s, b);
    Lib.ReadyNotEmpty(b);
    assert PcFits(s.threads[j]);
    match s.threads[j].pc
    case Take => Lib.OneCall(b, Lib.Down(2 * (j - 1) + 1));
    case Ack =>
      Lib.OneCall(b, Lib.Up(2 * (j - 1)));
      assert Link(s, j - 1);
    case Grow => GrowCalls(b);
    case Offer => Lib.OneCall(b, Lib.Up(2 * j + 1));
    case Confirm => Lib.OneCall(b, Lib.Down(2 * j));
    case Read => Lib.RunNone(b);
    case Put => Lib.RunNone(b);
    case Close => Lib.RunNone(b);
  }

  // ---------------------------------------------------------------- what every action keeps

  /** The reader, while the source is at risk: it comes no closer to closing than the queue allows. */
  lemma ReaderMoves(s: State, j: nat)
    requires Inv(s) && Ready(s, j) && Calm(s) && AtRisk(s) && s.threads[0].pc.Put? && j > 0
    requires |s.threads| > 2 && Passing(s.threads[1].pc) && (j == 1 ==> !s.threads[1].pc.Close?)
    ensures var u := Act(s, j);
      && u.threads != [] && u.threads[0] == s.threads[0]
      && |u.threads| > 2 && Passing(u.threads[1].pc) && Id(u, 1) == Id(s, 1)
      && (u.threads[1].pc.Close? ==>
            s.threads[1].pc.Close? || (j == 2 && s.threads[2].pc.Ack? && s.threads[1].pc.ConfirmWait?))
  {
    hide Act, Offers, Takes, RoleOk, Pass, Keeps, PrintedOk;
    RiskFacts(s);
    assert PcFits(s.threads[j]);
    Kinds(s, 0);
    if s.threads[j].pc.Grow? {
      GrowShape(s, j - 1);
    } else {
      ActNear(s, j);
      if j == 1 { ReaderOwn(s); }
    }
  }

  lemma ReaderOwn(s: State)
    requires Inv(s) && Calm(s) && |s.chans| > 1 && Ready(s, 1)
    ensures s.threads[1].pc.Put? ==> Act(s, 1).threads[1].pc.Offer?
    ensures s.threads[1].pc.Offer? ==> Act(s, 1).threads[1].pc.Confirm?
    ensures s.threads[1].pc.Confirm? ==> Act(s, 1).threads[1].pc.ConfirmWait?
  {
    hide Act, Offers, Takes, Role, PrintedOk;
    assert Link(s, 1);
    Kinds(s, 1);
    match s.threads[1].pc
    case Put => PutAround(s, 1);
    case Offer => OfferAround(s, 1);
    case Confirm => ConfirmAround(s, 1);
    case _ =>
  }

  lemma ActionQueued(s: State, b: Lib.Lib, j: nat)
    requires Hosts(s, b) && Calm(s) && Queued(s, b)
    requires j < |s.threads| && Id(s, j) == b.core.current != Lib.IDLE && Ready(s, j)
    ensures Lib.AllEnabled(b, Calls(s, j)) && Queued(Step(s, j), Lib.Run(b, Calls(s, j)))
  {
    hide Act, Inv, Lib.Good, Lib.Run, Lib.AllEnabled, Hosts, Calm, Flows, Before, Calls;
    HostsShape(s, b);
    ActionFlows(s, b, j);
    var u, d := Step(s, j), Lib.Run(b, Calls(s, j));
    if AtRisk(u) {
      SameLimit(s, j);
      if !AtRisk(s) {
        NewRisk(s, j);
      } else if j == 0 {
        SourceOwn(s, 0);
        ReaderStays(s);
      } else {
        if j == 1 && s.threads[1].pc.Close? {
          CurrentNotReady(s, b);
          BeforeIn(b.core.ready, SOURCE, Id(s, 1));
        }
        ReaderMoves(s, j);
        if u.threads[1].pc.Close? {
          if s.threads[1].pc.Close? {
            BeforeFlows(b.core, d.core, SOURCE, Id(s, 1));
          } else {
            SourceIsReady(s, b);
            BeforeLast(b.core.ready, SOURCE, Id(s, 1));
          }
        }
      }
    }
  }

  lemma ReaderStays(s: State)
    requires Inv(s) && Ready(s, 0) && |s.threads| > 2 && Passing(s.threads[1].pc)
    ensures |Act(s, 0).threads| > 2 && Act(s, 0).threads[1] == s.threads[1]
  {
    hide Act, Role, PrintedOk, Offers, Takes, Link;
    ActNear(s, 0);
  }

  lemma BeforeIn(q: seq<Tid>, x: Tid, y: Tid)
    requires Before(q, x, y)
    ensures y in q
  {
  }

  lemma BeforeLast(q: seq<Tid>, x: Tid, y: Tid)
    requires x in q
    ensures Before(q + [y], x, y)
  {
    var a :| 0 <= a < |q| && q[a] == x;
    assert (q + [y])[a] == x && (q + [y])[|q|] == y;
  }

  /** So the next action uses no freed memory. */
  lemma SafeNow(s: State, b: Lib.Lib, j: nat)
    requires Hosts(s, b) && Calm(s) && Queued(s, b) && MayRun(s, j)
    ensures !UsesFreed(s, j)
  {
    hide Offers, Takes, Pass, Keeps, PrintedOk;
    HostsShape(s, b);
    if j > 0 || s.max != 0xFFFF_FFFF {
      NoUseAfterFree(s, j);
    } else {
      FreedExactly(s, 0);
      Facts(s, 0);
      Kinds(s, 0);
      Sizes(s.max);
    }
  }

  // ---------------------------------------------------------------- the whole run

  lemma {:induction false} PlaySafe(s: State, b: Lib.Lib)
    requires Hosts(s, b) && Calm(s) && Queued(s, b)
    ensures Inv(s) && Possible(s, Play(s, b).0) && !TouchesFreed(s, Play(s, b).0)
    decreases Work(s, b), Lib.IdleRank(b)
  {
    hide Hosts, Inv, Lib.Good, Act, Step, Total, MayRun, Lib.AllEnabled, Lib.Run, Queued, Calm, UsesFreed;
    HostsShape(s, b);
    if b.core.current != Lib.IDLE {
      CurrentFree(s, b);
      var j := Position(s, b.core.current);
      if s.threads[j].pc.Done? {
        ExitLess(s, b);
        ExitQueued(s, b);
        PlaySafe(s, Lib.Step(b, Lib.Exit));
      } else {
        ActionLess(s, b, j);
        SafeNow(s, b, j);
        StepCalm(s, j);
        ActionQueued(s, b, j);
        var t, d := Step(s, j), Lib.Run(b, Calls(s, j));
        PlaySafe(t, d);
        SafeFirst(s, j, Play(t, d).0);
      }
    } else if |b.core.ready| > 1 {
      IdleLess(s, b);
      IdleQueued(s, b);
      PlaySafe(s, Lib.Step(b, Lib.Yield));
    }
  }

  lemma SafeFirst(s: State, j: nat, order: seq<nat>)
    requires Inv(s) && Ready(s, j) && !UsesFreed(s, j) && Inv(Step(s, j))
    requires Possible(Step(s, j), order) && !TouchesFreed(Step(s, j), order)
    ensures Possible(s, [j] + order) && !TouchesFreed(s, [j] + order)
  {
    assert ([j] + order)[0] == j && ([j] + order)[1..] == order;
  }

  lemma ExitQueued(s: State, b: Lib.Lib)
    requires Hosts(s, b) && Queued(s, b) && b.core.current != Lib.IDLE
    requires var j := Position(s, b.core.current); 0 <= j < |s.threads| && s.threads[j].pc.Done?
    ensures Lib.Good(b) && Lib.Enabled(b, Lib.Exit) && Queued(s, Lib.Step(b, Lib.Exit))
  {
    hide Inv, Lib.Good, Before;
    HostsShape(s, b);
    ExitLess(s, b);
    Lib.ReadyNotEmpty(b);
    var d := Lib.Step(b, Lib.Exit);
    assert Flows(b.core, d.core);
    if AtRisk(s) && s.threads[1].pc.Close? { BeforeFlows(b.core, d.core, SOURCE, Id(s, 1)); }
  }

  lemma IdleQueued(s: State, b: Lib.Lib)
    requires Hosts(s, b) && Queued(s, b) && b.core.current == Lib.IDLE && |b.core.ready| > 1
    ensures Lib.Good(b) && Lib.Enabled(b, Lib.Yield) && Queued(s, Lib.Step(b, Lib.Yield))
  {
    hide Inv, Lib.Good, Before;
    HostsShape(s, b);
    var d := Lib.Step(b, Lib.Yield);
    assert Flows(b.core, d.core);
    if AtRisk(s) && s.threads[1].pc.Close? { BeforeFlows(b.core, d.core, SOURCE, Id(s, 1)); }
  }

  /** The program on the library uses no freed memory, for every limit. */
  lemma ProgramSafe(max: Limit)
    ensures (InitInv(max); Possible(Init(max), Program(max).0) && !TouchesFreed(Init(max), Program(max).0))
  {
    StartedRun();
    StartedHosts(max);
    CalmStart(max);
    PlaySafe(Init(max), Started());
  }
}
