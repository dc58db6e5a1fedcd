/** The largest limit: a cooperative run of the sieve in which the source uses the channel that its reader has freed. */
module SieveRace {
  import opened Streams
  import opened Sieve
  import opened SieveInvariant
  import opened SieveProgress
  import opened SieveRuns
  import opened SieveSafety

  /** The source has still to store its second marker. */
  predicate Pending(s: State) {
    s.threads != [] && s.threads[0].Source? && (s.threads[0].pc.Put? || s.threads[0].i <= s.max)
  }

  /** Between two turns of the source it is not the source that runs; in a turn, it is. */
  predicate Turns(s: State) {
    && Pending(s)
    && (s.threads[0].pc.Put? ==> s.running != Id(s, 0))
    && (s.threads[0].pc.Offer? ==> s.running == Id(s, 0))
  }

  ghost predicate OneRuns(s: State) { exists j: nat :: j < |s.threads| && Id(s, j) == s.running }

  ghost predicate Racing(s: State) {
    Inv(s) && s.max == 0xFFFF_FFFF && Calm(s) && Turns(s) && OneRuns(s)
  }

  // ---------------------------------------------------------------- a turn of the source, and of others

  lemma SourceTurn(s: State)
    requires Racing(s) && Ready(s, 0) && !(s.threads[0].pc.Put? && s.threads[0].i > s.max)
    ensures Turns(Step(s, 0))
  {
    hide Act, Role, PrintedOk, Offers, Takes, Link;
    SameLimit(s, 0);
    var t := s.threads[0];
    match t.pc
    case Put => PutAround(s, 0);
    case Offer => OfferTurn(s);
    case Confirm => ConfirmAround(s, 0);
  }

  lemma OfferTurn(s: State)
    requires Racing(s) && s.threads[0].pc.Offer?
    ensures Act(s, 0).threads[0] == Move(s.threads[0], Confirm) && |Act(s, 0).threads| == |s.threads|
  {
    hide Act, Role, PrintedOk, Offers, Takes;
    assert Link(s, 0);
    OfferAround(s, 0);
  }

  lemma OtherTurn(s: State, j: nat)
    requires Racing(s) && Ready(s, j) && j > 0 && MayRun(s, j)
    ensures Turns(Step(s, j))
  {
    hide Act, Role, PrintedOk, Offers, Takes, Link;
    assert PcFits(s.threads[j]) && PcFits(s.threads[0]);
    SameLimit(s, j);
    if s.threads[j].pc.Grow? { GrowShape(s, j - 1); } else { ActNear(s, j); }
  }

  lemma StepRacing(s: State, j: nat)
    requires Racing(s) && MayRun(s, j) && !(j == 0 && s.threads[0].pc.Put? && s.threads[0].i > s.max)
    ensures Racing(Step(s, j))
  {
    hide Act, Role, PrintedOk, Link, Turns, Calm;
    StepInv(s, j);
    StepCalm(s, j);
    SameLimit(s, j);
    if j == 0 { SourceTurn(s); } else { OtherTurn(s, j); }
    SameRunner(s, j);
  }

  lemma SameRunner(s: State, j: nat)
    requires Inv(s) && Ready(s, j)
    ensures OneRuns(Step(s, j))
  {
    hide Act, Role, PrintedOk, Link;
    assert PcFits(s.threads[j]);
    if s.threads[j].pc.Grow? {
      GrowShape(s, j - 1);
      assert Id(Step(s, j), j + 1) == Step(s, j).running;
    } else {
      ActNear(s, j);
      assert Id(Step(s, j), j) == Step(s, j).running;
    }
  }

  // ---------------------------------------------------------------- the schedule

  /** When only the source can act and its second marker is next, its reader has finished and the channel is freed. */
  lemma OnlySource(s: State)
    requires Racing(s) && StuckFrom(s, 1)
    ensures Ready(s, 0)
    ensures s.threads[0].pc.Put? && s.threads[0].i > s.max ==> UsesFreed(s, 0)
  {
    hide EndsOnce, Offers, Takes, Pass, Keeps, PrintedOk;
    NobodyConfirms(s, 1);
    assert !Ready(s, 1);
    Facts(s, 0);
    Kinds(s, 0);
    Sizes(s.max);
  }

  lemma TouchesLater(s: State, j: nat, order: seq<nat>)
    requires Inv(s) && Ready(s, j) && Inv(Step(s, j)) && Possible(Step(s, j), order) && TouchesFreed(Step(s, j), order)
    ensures Possible(s, [j] + order) && TouchesFreed(s, [j] + order)
  {
    assert ([j] + order)[0] == j && ([j] + order)[1..] == order;
  }

  lemma CooperatesFirst(s: State, j: nat, order: seq<nat>)
    requires Inv(s) && MayRun(s, j) && Inv(Step(s, j)) && Cooperative(Step(s, j), order)
    ensures Cooperative(s, [j] + order)
  {
    assert ([j] + order)[0] == j && ([j] + order)[1..] == order;
  }

  /** Whose turn it is: the running thread's while it can act, then any other's, and the source's last. */
  lemma WhoseTurn(s: State) returns (j: nat)
    requires Racing(s)
    ensures MayRun(s, j)
    ensures j == 0 && s.threads[0].pc.Put? ==> StuckFrom(s, 1)
  {
    var r: nat :| r < |s.threads| && Id(s, r) == s.running;
    assert Position(s, s.running) == r;
    if Ready(s, r) {
      j := r;
    } else if k: nat :| 1 <= k < |s.threads| && Ready(s, k) {
      j := k;
    } else {
      OnlySource(s);
      j := 0;
    }
  }

  /** By that schedule the source comes to use its freed channel. */
  lemma {:induction false} Race(s: State) returns (order: seq<nat>)
    requires Racing(s)
    ensures Possible(s, order) && Cooperative(s, order) && TouchesFreed(s, order)
    decreases Total(s, |s.threads|)
  {
    hide Inv, Act, Step, Calm, Turns, OneRuns, Total, UsesFreed;
    InvShape(s);
    var j := WhoseTurn(s);
    if j == 0 && s.threads[0].pc.Put? && s.threads[0].i > s.max {
      OnlySource(s);
      order := [0];
      StepInv(s, 0);
      assert [0][1..] == [];
    } else {
      StepRacing(s, j);
      StepShrinks(s, j);
      var rest := Race(Step(s, j));
      order := [j] + rest;
      TouchesLater(s, j, rest);
      CooperatesFirst(s, j, rest);
    }
  }

  /** Some cooperative run of the program uses freed memory if and only if the limit is the largest. */
  lemma CooperativeUnsafe(max: Limit)
    ensures (InitInv(max); (exists order ::
      Cooperative(Init(max), order) && Possible(Init(max), order) && TouchesFreed(Init(max), order))
      <==> max == 0xFFFF_FFFF)
  {
    InitInv(max);
    var s := Init(max);
    if max == 0xFFFF_FFFF {
      assert Id(s, 1) == s.running;
      var order := Race(s);
    }
    forall order | Cooperative(s, order) && Possible(s, order) && TouchesFreed(s, order) ensures max == 0xFFFF_FFFF {
      CooperativeRun(s, order);
    }
  }
}
