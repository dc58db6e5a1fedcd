/** Whole runs of the sieve: what is printed, that no run gets stuck or goes on forever, and what is freed when. */
module SieveRuns {
  import opened Primes
  import opened Streams
  import opened Sieve
  import opened SieveInvariant
  import opened SieveProgress
  import LargePrime

  // ---------------------------------------------------------------- what is printed

  function Shown(ps: seq<nat>): seq<CInt> { seq(|ps|, i requires 0 <= i < |ps| => ToInt(ps[i])) }

  /** At all times the numbers printed are the first primes in order, as the C program shows them. */
  lemma PrintsPrimes(s: State)
    requires Inv(s)
    ensures |s.printed| <= |PrimesUpTo(s.max)| && s.printed == Shown(PrimesUpTo(s.max)[..|s.printed|])
  {
    var ps := PrimesUpTo(s.max);
    HeadsArePrimes(s.max, |ps|);
    forall c | 0 <= c < |s.printed| ensures s.printed[c] == ToInt(ps[c]) { HeadsArePrimes(s.max, c); }
  }

  /** Once the sink has seen the end marker it has printed all primes up to the limit. */
  lemma PrintsAllPrimes(s: State)
    requires Inv(s)
    requires var sink := s.threads[|s.threads| - 1]; sink.pc.Close? || sink.pc.Done?
    ensures s.printed == Shown(PrimesUpTo(s.max))
  {
    PrintsPrimes(s);
    var n := |s.printed|;
    HeadsArePrimes(s.max, n);
    assert Role(s, n + 1);
    assert PrimesUpTo(s.max)[..n] == PrimesUpTo(s.max);
  }

  /** The numbers shown are the primes themselves exactly if none of them exceeds the largest `int`. */
  lemma ShownAsTheyAre(max: Limit)
    ensures Shown(PrimesUpTo(max)) == PrimesUpTo(max) <==> forall p | p in PrimesUpTo(max) :: p <= 0x7FFF_FFFF
    ensures max <= 0x7FFF_FFFF ==> Shown(PrimesUpTo(max)) == PrimesUpTo(max)
  {
    hide PrimesUpTo;
    var ps := PrimesUpTo(max);
    forall i | 0 <= i < |ps| ensures ps[i] <= max && (ToInt(ps[i]) == ps[i] <==> ps[i] <= 0x7FFF_FFFF) {
      PrimesPositive(max, i);
    }
    if Shown(ps) == ps {
      forall p | p in ps ensures p <= 0x7FFF_FFFF {
        var i :| 0 <= i < |ps| && ps[i] == p;
        assert Shown(ps)[i] == ps[i];
      }
    }
    if forall p | p in ps :: p <= 0x7FFF_FFFF {
      forall i | 0 <= i < |ps| ensures Shown(ps)[i] == ps[i] { assert ps[i] in ps; }
    }
  }

  /** That is so exactly for the limits below the least prime that is too large; from there on it shows as negative. */
  lemma ShownExactly(max: Limit)
    ensures Shown(PrimesUpTo(max)) == PrimesUpTo(max) <==> max < LargePrime.P
    ensures max >= LargePrime.P ==> LargePrime.P - 0x1_0000_0000 in Shown(PrimesUpTo(max))
  {
    hide IsPrime, PrimesUpTo;
    LargePrime.PIsPrime();
    PrimesUpToMeaning(max);
    ShownAsTheyAre(max);
    var ps := PrimesUpTo(max);
    if max < LargePrime.P {
      forall p | p in ps ensures p <= 0x7FFF_FFFF {
        if p > 0x7FFF_FFFF { LargePrime.NothingBetween(p); }
      }
    } else {
      var i :| 0 <= i < |ps| && ps[i] == LargePrime.P;
      assert Shown(ps)[i] == LargePrime.P - 0x1_0000_0000;
    }
  }

  // ---------------------------------------------------------------- no run gets stuck

  ghost predicate AllDone(s: State) { forall j | 0 <= j < |s.threads| :: s.threads[j].pc.Done? }

  ghost predicate Stuck(s: State) { StuckFrom(s, 0) }

  /** No thread from the `j`-th on can act. */
  ghost predicate StuckFrom(s: State, j: nat) { forall k: nat | j <= k < |s.threads| :: !Ready(s, k) }

  /**
    * A writer waiting for its reader has a reader that can go on, or that waits for the next reader, and so on; only
    * the source can wait for a reader that is gone, with the second marker of the largest limit.
    */
  lemma {:induction false} NobodyConfirms(s: State, j: nat)
    requires Inv(s) && StuckFrom(s, j) && j < |s.threads| && (j > 0 || s.max != 0xFFFF_FFFF)
    ensures !s.threads[j].pc.ConfirmWait?
    decreases |s.threads| - j
  {
    hide EndsOnce, Offers, Takes, Pass, Keeps;
    assert PcFits(s.threads[j]);
    if j < |s.chans| {
      NobodyConfirms(s, j + 1);
      assert !Ready(s, j + 1);
      Facts(s, j);
    }
  }

  /** All that thread `j` will ever send is sent. */
  lemma AllSent(s: State, j: nat)
    requires Inv(s) && j < |s.chans| && s.threads[j].pc.Done?
    ensures s.chans[j].sent == |Offers(s.max, j)|
  {
    hide EndsOnce, Takes;
    Facts(s, j);
    Kinds(s, j);
    if j > 0 { OffersAndTakes(s.max, j - 1); }
  }

  /** With the largest limit the source never finishes: nobody takes its second marker. */
  lemma SourceNeverDone(s: State)
    requires Inv(s) && s.max == 0xFFFF_FFFF
    ensures !s.threads[0].pc.Done?
  {
    hide EndsOnce, Offers, Takes, Pass, Keeps;
    Facts(s, 0);
    Kinds(s, 0);
    if s.threads[0].pc.Done? { AllSent(s, 0); }
  }

  lemma {:induction false} DoneFrom(s: State, j: nat)
    requires Inv(s) && Stuck(s) && j < |s.threads| && (j > 0 || s.max != 0xFFFF_FFFF)
    ensures s.threads[j].pc.Done?
  {
    hide Offers, Takes, Pass, EndsOnce, Keeps;
    NobodyConfirms(s, j);
    assert !Ready(s, j);
    assert PcFits(s.threads[j]);
    if j > 0 {
      Facts(s, j - 1);
      if j > 1 || s.max != 0xFFFF_FFFF {
        DoneFrom(s, j - 1);
        AllSent(s, j - 1);
      } else {
        SourceNeverDone(s);
        assert !Ready(s, 0) && PcFits(s.threads[0]);
      }
    }
  }

  /** Nothing can act any more: all have finished, but for the source at the largest limit, which waits for ever. */
  lemma WhenStuck(s: State)
    requires Inv(s) && Stuck(s)
    ensures forall j | 1 <= j < |s.threads| :: s.threads[j].pc.Done?
    ensures if s.max != 0xFFFF_FFFF then s.threads[0].pc.Done? else s.threads[0].pc.ConfirmWait?
  {
    forall j | 1 <= j < |s.threads| ensures s.threads[j].pc.Done? { DoneFrom(s, j); }
    if s.max != 0xFFFF_FFFF {
      DoneFrom(s, 0);
    } else {
      SourceNeverDone(s);
      assert !Ready(s, 0) && PcFits(s.threads[0]);
    }
  }

  /** No channel leaks: there is one for each number printed and the last one, and in the end all are freed. */
  lemma AllFreed(s: State)
    requires Inv(s) && Stuck(s)
    ensures |s.chans| == |s.printed| + 1
    ensures forall c | 0 <= c < |s.chans| :: s.chans[c].freed
  {
    hide Offers, Takes, Pass, EndsOnce, Keeps;
    WhenStuck(s);
    forall c | 0 <= c < |s.chans| ensures s.chans[c].freed { Facts(s, c); }
  }

  /** And none is freed twice. */
  lemma FreedOnce(s: State, j: nat)
    requires Inv(s) && j < |s.threads| && s.threads[j].pc.Close?
    ensures 1 <= j <= |s.chans| && !s.chans[j - 1].freed
  {
    hide Offers, Takes, Pass, EndsOnce, Keeps;
    assert PcFits(s.threads[j]);
    Facts(s, j - 1);
  }

  /** No thread can act if and only if all have finished; for every limit but the largest. */
  lemma NoDeadlock(s: State)
    requires Inv(s)
    ensures AllDone(s) ==> Stuck(s)
    ensures Stuck(s) ==> (AllDone(s) <==> s.max != 0xFFFF_FFFF)
  {
    if Stuck(s) { WhenStuck(s); }
  }

  // ---------------------------------------------------------------- runs in any order

  /** The threads `order` can act one after the other. */
  ghost predicate Possible(s: State, order: seq<nat>)
    requires Inv(s)
    decreases |order|
  {
    order != [] ==> Ready(s, order[0]) && (StepInv(s, order[0]); Possible(Step(s, order[0]), order[1..]))
  }

  function Run(s: State, order: seq<nat>): State
    requires Inv(s) && Possible(s, order)
    decreases |order|
  {
    if order == [] then s else StepInv(s, order[0]); Run(Step(s, order[0]), order[1..])
  }

  lemma {:induction false} RunInv(s: State, order: seq<nat>)
    requires Inv(s) && Possible(s, order)
    ensures Inv(Run(s, order)) && Run(s, order).max == s.max
    ensures var t := Run(s, order); |order| + Total(t, |t.threads|) <= Total(s, |s.threads|)
    decreases |order|
  {
    hide Inv, Step, Total;
    if order != [] {
      InvShape(s);
      StepInv(s, order[0]);
      StepShrinks(s, order[0]);
      SameLimit(s, order[0]);
      RunInv(Step(s, order[0]), order[1..]);
    }
  }

  lemma InvShape(s: State)
    requires Inv(s)
    ensures Shape(s)
  {
  }

  lemma SameLimit(s: State, j: nat)
    requires Inv(s) && Ready(s, j)
    ensures Step(s, j).max == s.max
  {
    hide Link, Role, PrintedOk, PcFits;
  }

  /**
    * For every limit an `unsigned int` can hold, in whatever order the threads act: the numbers printed are always the
    * first primes; the run cannot go on for ever; when nothing can act any more, all primes are printed, every channel
    * is freed, and every thread has finished if and only if the limit is not the number that reads as the end marker.
    */
  lemma SieveCorrect(max: Limit, order: seq<nat>)
    requires (InitInv(max); Possible(Init(max), order))
    ensures var t := Run(Init(max), order); var ps := PrimesUpTo(max);
      && |t.printed| <= |ps| && t.printed == Shown(ps[..|t.printed|])
      && |order| <= Total(Init(max), 2)
      && (Stuck(t) ==>
            && t.printed == Shown(ps)
            && (AllDone(t) <==> max != 0xFFFF_FFFF)
            && |t.chans| == |ps| + 1 && forall c | 0 <= c < |t.chans| :: t.chans[c].freed)
  {
    InitInv(max);
    RunInv(Init(max), order);
    var t := Run(Init(max), order);
    PrintsPrimes(t);
    NoDeadlock(t);
    if Stuck(t) {
      WhenStuck(t);
      AllFreed(t);
      PrintsAllPrimes(t);
    }
  }
}
