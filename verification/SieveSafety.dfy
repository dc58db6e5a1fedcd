/** When the sieve uses memory it has freed: exactly which runs do, and that cooperative ones do not. */
module SieveSafety {
  import opened Streams
  import opened Sched
  import opened Sieve
  import opened SieveInvariant
  import opened SieveRuns

  /** The channel whose memory the next action of thread `j` uses. */
  function Touched(s: State, j: nat): int
    requires j < |s.threads|
  {
    if Using(s.threads[j].pc) then j else j - 1
  }

  /** A writer that goes on with its right channel. */
  predicate Using(pc: Pc) { pc.Put? || pc.Offer? || pc.Confirm? }

  /** The next action of thread `j` uses a channel that has been freed. */
  predicate UsesFreed(s: State, j: nat)
    requires j < |s.threads|
  {
    !s.threads[j].pc.Grow? && 0 <= Touched(s, j) < |s.chans| && s.chans[Touched(s, j)].freed
  }

  /** Thread `j` is about to free its left channel while the writer goes on with it. */
  predicate ClosesUsed(s: State, j: nat)
    requires j < |s.threads|
  {
    s.threads[j].pc.Close? && j > 0 && Using(s.threads[j - 1].pc)
  }

  lemma PassIncomplete(prime: nat, a: seq<CInt>, n: nat)
    requires EndsOnce(a) && 1 <= n < |a|
    ensures |Pass(prime, a[1..n])| < |Pass(prime, a[1..])|
  {
    var k := |a| - 1;
    PassGrows(prime, a, k);
    assert a[1..k + 1] == a[1..];
    assert a[1..k] == a[1..n] + a[n..k];
    PassJoin(prime, a[1..n], a[n..k]);
  }

  /** Once the reader is gone, a filter that writes is at its last confirmation, or behind it. */
  lemma GoneReader(s: State, c: nat)
    requires Inv(s) && 0 < c < |s.chans| && s.threads[c + 1].pc.Done?
    ensures var pc := s.threads[c].pc; pc.Confirm? || pc.Close? || pc.Done?
  {
    hide EndsOnce, Offers, Takes, Pass, Keeps, Next;
    Facts(s, c);
    Kinds(s, c);
    Facts(s, c - 1);
    OffersAndTakes(s.max, c - 1);
    GoneRole(s.threads[c], Takes(s.max, c - 1), s.chans[c - 1].got, s.chans[c].sent);
  }

  lemma GoneRole(t: Thread, a: seq<CInt>, got: nat, sent: nat)
    requires t.Filter? && PcFits(t) && !t.pc.Offer? && !t.pc.ConfirmWait?
    requires EndsOnce(a) && FilterOk(t, a, got, sent) && sent == |Next(a)|
    ensures t.pc.Confirm? || t.pc.Close? || t.pc.Done?
  {
    hide EndsOnce, Pass, Keeps;
    if got < |a| { PassIncomplete(t.prime, a, got); }
    if 2 <= got { PassIncomplete(t.prime, a, got - 1); }
  }

  /**
    * An action uses freed memory if and only if it is that of a writer whose reader is gone; but for the source at the
    * largest limit, that writer is about to confirm.
    */
  lemma FreedExactly(s: State, j: nat)
    requires Inv(s) && Ready(s, j)
    ensures UsesFreed(s, j) <==> j < |s.chans| && Using(s.threads[j].pc) && s.threads[j + 1].pc.Done?
    ensures j > 0 || s.max != 0xFFFF_FFFF ==>
      (UsesFreed(s, j) <==> j < |s.chans| && s.threads[j].pc.Confirm? && s.threads[j + 1].pc.Done?)
  {
    hide EndsOnce, Offers, Takes, Pass, Keeps;
    assert PcFits(s.threads[j]);
    if !s.threads[j].pc.Grow? {
      var c := Touched(s, j);
      Facts(s, c);
      Kinds(s, c);
      if j < |s.chans| && s.threads[j + 1].pc.Done? {
        if j > 0 { GoneReader(s, j); } else if s.threads[0].pc.Put? { PutValue(s, 0); }
      }
    }
  }

  // ---------------------------------------------------------------- over runs

  /** Some action of the run uses freed memory. */
  ghost predicate TouchesFreed(s: State, order: seq<nat>)
    requires Inv(s) && Possible(s, order)
    decreases |order|
  {
    order != [] && (UsesFreed(s, order[0]) || (StepInv(s, order[0]); TouchesFreed(Step(s, order[0]), order[1..])))
  }

  /** Some action of the run frees a channel while its writer goes on with it. */
  ghost predicate ClosesEarly(s: State, order: seq<nat>)
    requires Inv(s) && Possible(s, order)
    decreases |order|
  {
    order != [] && (ClosesUsed(s, order[0]) || (StepInv(s, order[0]); ClosesEarly(Step(s, order[0]), order[1..])))
  }

  /** Some action of the run frees a channel whose writer has made an offer and not yet asked for the answer. */
  ghost predicate ClosesAtConfirm(s: State, order: seq<nat>)
    requires Inv(s) && Possible(s, order)
    decreases |order|
  {
    order != [] &&
      var j := order[0];
      || (s.threads[j].pc.Close? && j > 0 && s.threads[j - 1].pc.Confirm?)
      || (StepInv(s, j); ClosesAtConfirm(Step(s, j), order[1..]))
  }

  /** No channel is freed that its writer goes on with. */
  ghost predicate Settled(s: State)
    requires |s.threads| == |s.chans| + 1
  {
    forall c | 0 <= c < |s.chans| && s.chans[c].freed :: !Using(s.threads[c].pc)
  }

  // ---------------------------------------------------------------- what an action leaves alone

  /** The other thread at the channel that thread `j` uses. */
  function Partner(s: State, j: nat): int
    requires j < |s.threads|
  {
    if Using(s.threads[j].pc) then j + 1 else j - 1
  }

  /** The partner is left alone, or woken by an answer to what it waits for. */
  predicate PartnerOk(max: Limit, pc: Pc, before: Thread, after: Thread) {
    || after == before
    || (pc.Offer? && before.pc.TakeWait? && after == Move(before, Read))
    || (pc.Ack? && before.pc.ConfirmWait? && !before.Sink? && after == AfterConfirm(max, before))
  }

  /** Apart from its own thread, an action changes the partner and the channel between them. */
  ghost predicate Near(s: State, j: nat, u: State)
    requires |s.threads| == |s.chans| + 1 && j < |s.threads|
  {
    var c, p := Touched(s, j), Partner(s, j);
    && 0 <= c < |s.chans| && 0 <= p < |s.threads|
    && |u.threads| == |s.threads| && |u.chans| == |s.chans|
    && (forall k | 0 <= k < |s.threads| && k != j && k != p :: u.threads[k] == s.threads[k])
    && PartnerOk(s.max, s.threads[j].pc, s.threads[p], u.threads[p])
    && (Using(u.threads[j].pc) ==> Using(s.threads[j].pc) || s.threads[j].pc.Ack?)
    && (forall k | 0 <= k < |s.chans| && k != c :: u.chans[k] == s.chans[k])
    && u.chans[c].freed == (s.chans[c].freed || s.threads[j].pc.Close?)
    && u.printed == s.printed
  }

  lemma AroundNear(s: State, j: nat, w: Thread, ch: Chan, r: Thread)
    requires |s.threads| == |s.chans| + 1 && j < |s.threads| && 0 <= Touched(s, j) < |s.chans|
    requires var c := Touched(s, j); var p := if j == c then r else w;
      var own := if j == c then w else r;
      && PartnerOk(s.max, s.threads[j].pc, s.threads[Partner(s, j)], p)
      && (Using(own.pc) ==> Using(s.threads[j].pc) || s.threads[j].pc.Ack?)
      && ch.freed == (s.chans[c].freed || s.threads[j].pc.Close?)
    ensures Near(s, j, Around(s, Touched(s, j), w, ch, r))
  {
    hide PartnerOk;
  }

  lemma ActNear(s: State, j: nat)
    requires Inv(s) && Ready(s, j) && !s.threads[j].pc.Grow?
    ensures Near(s, j, Act(s, j))
  {
    hide Act, Role, PrintedOk, Offers, Takes, AfterConfirm, AfterAck, Outgoing, Id, Near, EndsOnce, RoleOk, Shows;
    assert PcFits(s.threads[j]);
    var c := Touched(s, j);
    Facts(s, c);
    Kinds(s, c);
    hide Inv, Shape;
    var w, ch, r := s.threads[c], s.chans[c], s.threads[c + 1];
    match s.threads[j].pc
    case Take =>
      TakeAround(s, c);
      var (m, taken) := Acquire(ch.consume, Id(s, j));
      AroundNear(s, j, w, ch.(consume := m), Move(r, if taken then Read else TakeWait));
    case Read =>
      ReadAround(s, c);
      AroundNear(s, j, w, ch.(got := ch.got + 1), Having(r, Ack, ch.value));
    case Ack =>
      AckAround(s, c);
      var (m, _) := Release(ch.produce);
      AroundNear(s, j, if w.pc.ConfirmWait? then AfterConfirm(s.max, w) else w, ch.(produce := m), AfterAck(r));
    case Put =>
      PutAround(s, c);
      AroundNear(s, j, Move(w, Offer), ch.(value := Outgoing(s.max, w), sent := ch.sent + 1), r);
    case Offer =>
      OfferAround(s, c);
      var (m, _) := Release(ch.consume);
      AroundNear(s, j, Move(w, Confirm), ch.(consume := m), if r.pc.TakeWait? then Move(r, Read) else r);
    case Confirm =>
      ConfirmAround(s, c);
      var (m, taken) := Acquire(ch.produce, Id(s, j));
      AroundNear(s, j, if taken then AfterConfirm(s.max, w) else Move(w, ConfirmWait), ch.(produce := m), r);
    case Close =>
      CloseAround(s, c);
      AroundNear(s, j, w, ch.(freed := true), Move(r, Done));
  }

  // ---------------------------------------------------------------- which runs use freed memory

  /** Unless a channel in use is freed, none is used that is freed. */
  lemma StepSettled(s: State, j: nat)
    requires Inv(s) && Ready(s, j) && Settled(s) && !ClosesUsed(s, j)
    ensures |Step(s, j).threads| == |Step(s, j).chans| + 1 && Settled(Step(s, j))
  {
    hide Act, PrintedOk, Offers, Takes, Role, Inv;
    InvShape(s);
    StepInv(s, j);
    InvShape(Step(s, j));
    assert PcFits(s.threads[j]);
    if s.threads[j].pc.Grow? {
      GrowShape(s, j - 1);
    } else {
      ActNear(s, j);
      var u := Act(s, j);
      forall c | 0 <= c < |u.chans| && u.chans[c].freed ensures !Using(u.threads[c].pc) { StaysSettled(s, j, u, c); }
    }
  }

  lemma StaysSettled(s: State, j: nat, u: State, c: nat)
    requires Inv(s) && Ready(s, j) && Settled(s) && !ClosesUsed(s, j) && Near(s, j, u)
    requires c < |u.chans| && u.chans[c].freed
    ensures !Using(u.threads[c].pc)
  {
    hide PrintedOk, Offers, Takes, Role;
    assert PcFits(s.threads[j]) && Link(s, c);
    if c == j && s.threads[j].pc.Ack? { GoneReader(s, j); }
  }

  /** A writer that goes on with a freed channel uses it before the run can end. */
  lemma {:induction false} Doomed(s: State, c: nat, order: seq<nat>)
    requires Inv(s) && Possible(s, order) && Stuck(Run(s, order))
    requires c < |s.chans| && c < |s.threads| && s.chans[c].freed && Using(s.threads[c].pc)
    ensures TouchesFreed(s, order)
    decreases |order|
  {
    hide Inv, Step;
    InvShape(s);
    assert Ready(s, c);
    if order != [] && order[0] != c {
      StepInv(s, order[0]);
      StaysUsed(s, order[0], c);
      Doomed(Step(s, order[0]), c, order[1..]);
    }
  }

  lemma StaysUsed(s: State, j: nat, c: nat)
    requires Inv(s) && Ready(s, j) && c != j && c < |s.chans| && Using(s.threads[c].pc)
    requires s.chans[c].freed || (ClosesUsed(s, j) && c == j - 1)
    ensures var u := Step(s, j); c < |u.chans| && c < |u.threads| && u.chans[c].freed && Using(u.threads[c].pc)
  {
    hide Act, PrintedOk, Offers, Takes, Role, Link;
    assert PcFits(s.threads[j]);
    if s.threads[j].pc.Grow? { GrowShape(s, j - 1); } else { ActNear(s, j); }
  }

  /**
    * A run that ends uses freed memory if and only if on its way a channel is freed while its writer goes on with it.
    */
  lemma {:induction false} UnsafeExactly(s: State, order: seq<nat>)
    requires Inv(s) && Settled(s) && Possible(s, order) && Stuck(Run(s, order))
    ensures TouchesFreed(s, order) <==> ClosesEarly(s, order)
    decreases |order|
  {
    hide Inv, Step;
    if order != [] {
      var j := order[0];
      InvShape(s);
      StepInv(s, j);
      NotYet(s, j);
      if ClosesUsed(s, j) {
        StaysUsed(s, j, j - 1);
        Doomed(Step(s, j), j - 1, order[1..]);
      } else {
        StepSettled(s, j);
        UnsafeExactly(Step(s, j), order[1..]);
      }
    }
  }

  lemma NotYet(s: State, j: nat)
    requires Inv(s) && Ready(s, j) && Settled(s)
    ensures !UsesFreed(s, j)
  {
    FreedExactly(s, j);
    hide Role, Offers, Takes;
  }

  /** At the moment of freeing, the writer goes on if and only if it is at its confirmation; the largest limit apart. */
  lemma UsedAtClose(s: State, j: nat)
    requires Inv(s) && Ready(s, j) && s.threads[j].pc.Close?
    ensures j > 0
    ensures j > 1 || s.max != 0xFFFF_FFFF ==> (ClosesUsed(s, j) <==> s.threads[j - 1].pc.Confirm?)
    ensures s.threads[j - 1].pc.Put? || s.threads[j - 1].pc.Offer? ==>
      j == 1 && s.threads[0].i > s.max == 0xFFFF_FFFF
  {
    hide Offers, Takes, EndsOnce, Pass, Keeps;
    assert PcFits(s.threads[j]);
    Facts(s, j - 1);
    Kinds(s, j - 1);
    if s.threads[j - 1].pc.Put? { PutValue(s, j - 1); }
    if s.max == 0xFFFF_FFFF { Sizes(s.max); }
  }

  lemma {:induction false} EarlyMeansAtConfirm(s: State, order: seq<nat>)
    requires Inv(s) && Possible(s, order) && s.max != 0xFFFF_FFFF
    ensures ClosesEarly(s, order) <==> ClosesAtConfirm(s, order)
    decreases |order|
  {
    hide Inv, Step;
    if order != [] {
      var j := order[0];
      InvShape(s);
      StepInv(s, j);
      SameLimit(s, j);
      if s.threads[j].pc.Close? { UsedAtClose(s, j); }
      EarlyMeansAtConfirm(Step(s, j), order[1..]);
    }
  }

  /**
    * For every limit and every run of the program that ends, with any interleaving: it uses freed memory if and only if
    * some channel is freed while its writer goes on with it; but for the largest limit, while its writer is between
    * offer and confirmation.
    */
  lemma SafeExactly(max: Limit, order: seq<nat>)
    requires (InitInv(max); Possible(Init(max), order) && Stuck(Run(Init(max), order)))
    ensures (InitInv(max); TouchesFreed(Init(max), order) <==> ClosesEarly(Init(max), order))
    ensures max != 0xFFFF_FFFF ==>
      (InitInv(max); TouchesFreed(Init(max), order) <==> ClosesAtConfirm(Init(max), order))
  {
    InitInv(max);
    UnsafeExactly(Init(max), order);
    if max != 0xFFFF_FFFF { EarlyMeansAtConfirm(Init(max), order); }
  }

  // ---------------------------------------------------------------- destroying semaphores

  /**
    * Whoever closes a channel finds the readers' wait queue empty, and the writer's too unless the writer waits; only
    * the source at the largest limit can.
    */
  lemma NobodyWaitsAtClose(s: State, j: nat)
    requires Inv(s) && Ready(s, j) && s.threads[j].pc.Close?
    ensures j > 0 && s.chans[j - 1].consume.waiters == [] && !s.chans[j - 1].freed
    ensures s.chans[j - 1].produce.waiters == [] <==> !s.threads[j - 1].pc.ConfirmWait?
    ensures j > 1 || s.max != 0xFFFF_FFFF ==> s.chans[j - 1].produce.waiters == []
  {
    hide Offers, Takes, Pass, EndsOnce, Keeps;
    assert PcFits(s.threads[j]);
    Facts(s, j - 1);
    Kinds(s, j - 1);
  }

  // ---------------------------------------------------------------- cooperative runs

  /** Another thread runs only once the running one is blocked or has finished. */
  predicate MayRun(s: State, j: nat) {
    Ready(s, j) && (Id(s, j) == s.running || (Position(s, s.running) >= 0 ==> !Ready(s, Position(s, s.running))))
  }

  /** A thread that has made an offer is still running, and has no answer yet. */
  ghost predicate Calm(s: State)
    requires |s.threads| == |s.chans| + 1
  {
    forall c | 0 <= c < |s.chans| && s.threads[c].pc.Confirm? :: s.running == Id(s, c) && s.chans[c].produce.count == 0
  }

  /** Only an offer takes a thread to `Confirm`; waking somebody does not. */
  lemma NewlyConfirm(s: State, j: nat, k: nat)
    requires Shape(s) && Ready(s, j) && k < |Act(s, j).threads| && Act(s, j).threads[k].pc.Confirm?
    ensures k < |s.threads| && if k == j then s.threads[j].pc.Offer? else s.threads[k].pc.Confirm?
  {
    hide Keeps, ToUnsigned, Outgoing, Id, Position, Acquire, Release, Wake;
    var t := s.threads[j];
    if t.pc.Ack? {
      var (m, woken) := Release(s.chans[j - 1].produce);
      WakeConfirm(With(s, j, AfterAck(t), j - 1, s.chans[j - 1].(produce := m)), woken, k);
    } else if t.pc.Offer? {
      var (m, woken) := Release(s.chans[j].consume);
      WakeConfirm(With(s, j, Move(t, Confirm), j, s.chans[j].(consume := m)), woken, k);
    }
  }

  lemma WakeConfirm(s: State, woken: seq<Tid>, k: nat)
    requires k < |Wake(s, woken).threads| && Wake(s, woken).threads[k].pc.Confirm?
    ensures k < |s.threads| && s.threads[k].pc.Confirm?
  {
  }

  lemma OfferCalm(s: State, c: nat)
    requires Inv(s) && c < |s.chans| && s.threads[c].pc.Offer?
    ensures Act(s, c).chans[c].produce.count == 0 && |Act(s, c).threads| == |s.threads|
  {
    assert Link(s, c);
    hide Carried, RoleOk, Shows;
    OfferAround(s, c);
  }

  lemma ConfirmRuns(s: State, c: nat)
    requires Shape(s) && Calm(s) && c < |s.threads| && s.threads[c].pc.Confirm?
    ensures Position(s, s.running) == c && Ready(s, c) && s.running == Id(s, c)
  {
    assert PcFits(s.threads[c]);
  }

  lemma StepCalm(s: State, j: nat)
    requires Inv(s) && Calm(s) && MayRun(s, j)
    ensures |Step(s, j).threads| == |Step(s, j).chans| + 1 && Calm(Step(s, j))
  {
    hide Act, Link, Role, PrintedOk;
    StepInv(s, j);
    var u := Act(s, j);
    forall c | 0 <= c < |u.chans| && u.threads[c].pc.Confirm?
      ensures Id(s, j) == Id(u, c) && u.chans[c].produce.count == 0
    {
      NewlyConfirm(s, j, c);
      if c == j {
        OfferCalm(s, j);
      } else {
        ConfirmRuns(s, c);
      }
    }
  }

  /** Under cooperative scheduling nobody uses the memory of a channel that has been freed. */
  lemma NoUseAfterFree(s: State, j: nat)
    requires Inv(s) && Calm(s) && MayRun(s, j)
    ensures UsesFreed(s, j) ==> j == 0 && s.max == 0xFFFF_FFFF && s.threads[0].i > s.max
  {
    hide Offers, Takes, Pass, EndsOnce;
    FreedExactly(s, j);
    if j < |s.chans| {
      Facts(s, j);
      Kinds(s, j);
      assert s.threads[j].pc.Confirm? ==> s.chans[j].produce.count == 0;
    }
    if s.max == 0xFFFF_FFFF { Sizes(s.max); }
  }

  ghost predicate Cooperative(s: State, order: seq<nat>)
    requires Inv(s)
    decreases |order|
  {
    order != [] ==> MayRun(s, order[0]) && (StepInv(s, order[0]); Cooperative(Step(s, order[0]), order[1..]))
  }

  lemma {:induction false} CooperativeRun(s: State, order: seq<nat>)
    requires Inv(s) && Calm(s) && Cooperative(s, order)
    ensures Possible(s, order) && Inv(Run(s, order)) && Calm(Run(s, order))
    ensures s.max != 0xFFFF_FFFF ==> !TouchesFreed(s, order)
    decreases |order|
  {
    hide Inv, Step, Calm, UsesFreed;
    if order != [] {
      InvShape(s);
      StepInv(s, order[0]);
      SameLimit(s, order[0]);
      if s.max != 0xFFFF_FFFF { NoUseAfterFree(s, order[0]); }
      StepCalm(s, order[0]);
      CooperativeRun(Step(s, order[0]), order[1..]);
    }
  }

  /**
    * Cooperative runs of the sieve are safe: whoever may run next uses no freed channel, always blocks after its offer,
    * and finds nobody waiting when it destroys semaphores; the source at the largest limit and its channel excepted.
    */
  lemma CooperativeSafe(max: Limit, order: seq<nat>, j: nat)
    requires (InitInv(max); Cooperative(Init(max), order))
    ensures (InitInv(max); Possible(Init(max), order))
    ensures max != 0xFFFF_FFFF ==> (InitInv(max); !TouchesFreed(Init(max), order))
    ensures var t := Run(Init(max), order); MayRun(t, j) ==>
      && (j > 0 || max != 0xFFFF_FFFF ==> !UsesFreed(t, j))
      && (t.threads[j].pc.Confirm? ==> j < |t.chans| && t.chans[j].produce.count == 0)
      && (t.threads[j].pc.Close? ==>
            && 0 < j <= |t.chans|
            && (j > 1 || max != 0xFFFF_FFFF ==> t.chans[j - 1].produce.waiters == [])
            && t.chans[j - 1].consume.waiters == [])
  {
    InitInv(max);
    CooperativeRun(Init(max), order);
    RunInv(Init(max), order);
    var t := Run(Init(max), order);
    if MayRun(t, j) {
      assert PcFits(t.threads[j]);
      if j > 0 || max != 0xFFFF_FFFF { NoUseAfterFree(t, j); }
      if t.threads[j].pc.Close? { NobodyWaitsAtClose(t, j); }
    }
  }

  /**
    * Cooperation is needed: with no number to send, the source stopped between its offer and its confirmation, the sink
    * reads the marker, acknowledges it and frees the channel that the source is about to use.
    */
  lemma PreemptionIsUnsafe() returns (order: seq<nat>)
    ensures (InitInv(0); Possible(Init(0), order))
    ensures var t := Run(Init(0), order); Ready(t, 0) && UsesFreed(t, 0)
  {
    hide Inv, Act;
    InitInv(0);
    order := Follow(0);
  }

  /** The states of that run, and who acts in them. */
  function Moment(k: nat): State {
    var c, u := Sem(0, []), Sem(1, []);
    match k
    case 0 => Init(0)
    case 1 => At(Offer, Take, 0, Chan(END, c, c, 1, 0, false), 3)
    case 2 => At(Confirm, Take, 0, Chan(END, c, u, 1, 0, false), 3)
    case 3 => At(Confirm, Read, 0, Chan(END, c, c, 1, 0, false), SINK)
    case 4 => At(Confirm, Ack, END, Chan(END, c, c, 1, 1, false), SINK)
    case 5 => At(Confirm, Close, END, Chan(END, u, c, 1, 1, false), SINK)
    case _ => At(Confirm, Done, END, Chan(END, u, c, 1, 1, true), SINK)
  }

  function At(source: Pc, sink: Pc, value: CInt, ch: Chan, running: Tid): State {
    State(0, [Source(source, 2), Sink(sink, value)], [ch], [], running)
  }

  function Actor(k: nat): nat { if k < 2 then 0 else 1 }

  lemma NextMoment(k: nat)
    requires k < 6
    ensures Shape(Moment(k)) && Ready(Moment(k), Actor(k)) && Step(Moment(k), Actor(k)) == Moment(k + 1)
  {
  }

  lemma {:induction false} Follow(k: nat) returns (order: seq<nat>)
    requires k <= 6 && Inv(Moment(k))
    ensures Possible(Moment(k), order) && Run(Moment(k), order) == Moment(6)
    decreases 6 - k
  {
    hide Inv, Act, Moment;
    order := [];
    if k < 6 {
      NextMoment(k);
      StepInv(Moment(k), Actor(k));
      var rest := Follow(k + 1);
      order := [Actor(k)] + rest;
      assert order[1..] == rest;
    }
  }
}
