/** Every action of the sieve brings it closer to its end. */
module SieveProgress {
  import opened Streams
  import opened Sched
  import opened Sieve
  import opened SieveInvariant

  /** Actions a thread still has before its next value. */
  function PcRank(pc: Pc): nat {
    match pc
    case Ack => 9
    case Put => 8
    case Grow => 8
    case Offer => 7
    case Confirm => 6
    case ConfirmWait => 5
    case Close => 4
    case Take => 3
    case TakeWait => 2
    case Read => 1
    case Done => 0
  }

  /** What the threads not yet made will have to do when channel content `a` has reached the sink. */
  function Future(a: seq<CInt>): nat
    decreases |a|
  {
    if a == [] || a[0] == END then 0 else PassShort(ToUnsigned(a[0]), a[1..]); 10 * |a| + 10 + Future(Next(a))
  }

  function RankOf(max: Limit, t: Thread, a: seq<CInt>, got: nat): nat {
    PcRank(t.pc) +
    match t
    case Source(_, i) => if i > max then 0 else 10 * (max + 1 - i)
    case Filter(_, _, _) => if got > |a| then 0 else 10 * (|a| - got)
    case Sink(_, _) => if got >= 1 then Future(a) else 10 + Future(a)
  }

  function Rank(s: State, j: nat): nat
    requires j < |s.threads|
  {
    RankOf(s.max, s.threads[j], Incoming(s, j), Got(s, j))
  }

  /** The rank of the first `n` threads together. */
  function Total(s: State, n: nat): nat
    requires n <= |s.threads|
  {
    if n == 0 then 0 else Total(s, n - 1) + Rank(s, n - 1)
  }

  lemma {:induction false} TotalShrinks(s: State, u: State, j: nat, n: nat)
    requires n <= |s.threads| && n <= |u.threads|
    requires forall k | 0 <= k < n :: Rank(u, k) <= Rank(s, k)
    requires j < n ==> Rank(u, j) < Rank(s, j)
    ensures Total(u, n) <= Total(s, n)
    ensures j < n ==> Total(u, n) < Total(s, n)
  {
    hide Rank;
    if n > 0 { TotalShrinks(s, u, j, n - 1); }
  }

  lemma AroundShrinks(s: State, c: nat, w: Thread, ch: Chan, r: Thread)
    requires |s.threads| == |s.chans| + 1 && c < |s.chans|
    requires RankOf(s.max, w, Incoming(s, c), Got(s, c)) <= Rank(s, c)
    requires RankOf(s.max, r, Incoming(s, c + 1), ch.got) <= Rank(s, c + 1)
    requires RankOf(s.max, w, Incoming(s, c), Got(s, c)) + RankOf(s.max, r, Incoming(s, c + 1), ch.got)
             < Rank(s, c) + Rank(s, c + 1)
    ensures var u := Around(s, c, w, ch, r); Total(u, |u.threads|) < Total(s, |s.threads|)
  {
    hide RankOf, Offers, Takes;
    var u := Around(s, c, w, ch, r);
    forall k | 0 <= k < |u.threads| ensures Rank(u, k) <= Rank(s, k) { }
    TotalShrinks(s, u, if Rank(u, c) < Rank(s, c) then c else c + 1, |s.threads|);
  }

  lemma AfterConfirmRank(max: Limit, t: Thread, a: seq<CInt>, got: nat)
    requires Offered(t.pc) && !t.Sink?
    ensures RankOf(max, AfterConfirm(max, t), a, got) < RankOf(max, t, a, got)
  {
  }

  lemma TakeShrinks(s: State, c: nat)
    requires Inv(s) && c < |s.chans| && s.threads[c + 1].pc.Take?
    ensures var u := Act(s, c + 1); Total(u, |u.threads|) < Total(s, |s.threads|)
  {
    hide Inv, Total, Offers, Takes, EndsOnce, Future, Pass, Sync, Shows, RoleOk, Act, Id;
    Facts(s, c);
    TakeAround(s, c);
    var w, ch, r := s.threads[c], s.chans[c], s.threads[c + 1];
    var (m, taken) := Acquire(ch.consume, Id(s, c + 1));
    AroundShrinks(s, c, w, ch.(consume := m), Move(r, if taken then Read else TakeWait));
  }

  lemma ReadShrinks(s: State, c: nat)
    requires Inv(s) && c < |s.chans| && s.threads[c + 1].pc.Read?
    ensures var u := Act(s, c + 1); Total(u, |u.threads|) < Total(s, |s.threads|)
  {
    hide Inv, Total, Offers, Takes, EndsOnce, Future, Pass, Act, Id;
    Facts(s, c);
    Kinds(s, c);
    ReadAround(s, c);
    var w, ch, r := s.threads[c], s.chans[c], s.threads[c + 1];
    AroundShrinks(s, c, w, ch.(got := ch.got + 1), Having(r, Ack, ch.value));
  }

  lemma CloseShrinks(s: State, c: nat)
    requires Inv(s) && c < |s.chans| && s.threads[c + 1].pc.Close?
    ensures var u := Act(s, c + 1); Total(u, |u.threads|) < Total(s, |s.threads|)
  {
    hide Inv, Total, Offers, Takes, EndsOnce, Future, Pass, Sync, Shows, RoleOk, Act, Id;
    Facts(s, c);
    CloseAround(s, c);
    AroundShrinks(s, c, s.threads[c], s.chans[c].(freed := true), Move(s.threads[c + 1], Done));
  }

  lemma AckShrinks(s: State, c: nat)
    requires Inv(s) && c < |s.chans| && s.threads[c + 1].pc.Ack?
    ensures var u := Act(s, c + 1); Total(u, |u.threads|) < Total(s, |s.threads|)
  {
    hide Inv, Total, Offers, Takes, EndsOnce, Future, Pass, Shows, RoleOk, Act, Id, AfterConfirm, Keeps;
    Facts(s, c);
    Kinds(s, c);
    AckAround(s, c);
    var w, r := s.threads[c], s.threads[c + 1];
    var (m, _) := Release(s.chans[c].produce);
    if w.pc.ConfirmWait? { AfterConfirmRank(s.max, w, Incoming(s, c), Got(s, c)); }
    var w' := if w.pc.ConfirmWait? then AfterConfirm(s.max, w) else w;
    AroundShrinks(s, c, w', s.chans[c].(produce := m), AfterAck(r));
  }

  lemma PutShrinks(s: State, c: nat)
    requires Inv(s) && c < |s.chans| && s.threads[c].pc.Put?
    ensures var u := Act(s, c); Total(u, |u.threads|) < Total(s, |s.threads|)
  {
    hide Inv, Total, Offers, Takes, EndsOnce, Future, Pass, Sync, Shows, RoleOk, Act, Id, Outgoing;
    Facts(s, c);
    PutAround(s, c);
    var w, ch, r := s.threads[c], s.chans[c], s.threads[c + 1];
    AroundShrinks(s, c, Move(w, Offer), ch.(value := Outgoing(s.max, w), sent := ch.sent + 1), r);
  }

  lemma OfferShrinks(s: State, c: nat)
    requires Inv(s) && c < |s.chans| && s.threads[c].pc.Offer?
    ensures var u := Act(s, c); Total(u, |u.threads|) < Total(s, |s.threads|)
  {
    hide Inv, Total, Offers, Takes, EndsOnce, Future, Pass, Shows, RoleOk, Act, Id;
    Facts(s, c);
    Kinds(s, c);
    OfferAround(s, c);
    var w, r := s.threads[c], s.threads[c + 1];
    var (m, _) := Release(s.chans[c].consume);
    AroundShrinks(s, c, Move(w, Confirm), s.chans[c].(consume := m), if r.pc.TakeWait? then Move(r, Read) else r);
  }

  lemma ConfirmShrinks(s: State, c: nat)
    requires Inv(s) && c < |s.chans| && s.threads[c].pc.Confirm?
    ensures var u := Act(s, c); Total(u, |u.threads|) < Total(s, |s.threads|)
  {
    hide Inv, Total, Offers, Takes, EndsOnce, Future, Pass, Sync, Shows, RoleOk, Act, Id, AfterConfirm;
    Facts(s, c);
    Kinds(s, c);
    ConfirmAround(s, c);
    var w, ch, r := s.threads[c], s.chans[c], s.threads[c + 1];
    AfterConfirmRank(s.max, w, Incoming(s, c), Got(s, c));
    var (m, taken) := Acquire(ch.produce, Id(s, c));
    AroundShrinks(s, c, if taken then AfterConfirm(s.max, w) else Move(w, ConfirmWait), ch.(produce := m), r);
  }

  lemma GrowShrinks(s: State, c: nat)
    requires Inv(s) && c == |s.chans| - 1 && s.threads[c + 1].pc.Grow?
    ensures var u := Act(s, c + 1); Total(u, |u.threads|) < Total(s, |s.threads|)
  {
    Facts(s, c);
    GrowShape(s, c);
    GrownShrinks(s, |s.threads|);
    hide *;
  }

  lemma GrownShrinks(s: State, n: nat)
    requires Shape(s) && n == |s.threads| && s.threads[n - 1].pc.Grow? && Role(s, n - 1)
    ensures var u := Grown(s); Total(u, |u.threads|) < Total(s, n)
  {
    hide Rank, Role, PcFits;
    var u := Grown(s);
    GrowRank(s, u, n);
    TotalShrinks(s, u, n, n - 1);
    assert Total(s, n) == Total(s, n - 1) + Rank(s, n - 1);
    assert Total(u, n + 1) == Total(u, n - 1) + Rank(u, n - 1) + Rank(u, n);
  }

  lemma GrowRank(s: State, u: State, n: nat)
    requires Shape(s) && n == |s.threads| && s.threads[n - 1].pc.Grow? && u == Grown(s)
    requires Role(s, n - 1)
    ensures forall k | 0 <= k < n - 1 :: Rank(u, k) == Rank(s, k)
    ensures Rank(u, n - 1) + Rank(u, n) < Rank(s, n - 1)
  {
    hide PcFits, Pass, Next, EndsOnce, Offers, Takes;
    OffersAndTakes(s.max, n - 2);
    assert Incoming(u, n) == Next(Incoming(s, n - 1));
    forall k | 0 <= k < n - 1 ensures Rank(u, k) == Rank(s, k) { hide RankOf; }
  }

  lemma ActShrinks(s: State, j: nat)
    requires Inv(s) && Ready(s, j)
    ensures var u := Act(s, j); Total(u, |u.threads|) < Total(s, |s.threads|)
  {
    hide Total, Act, Link, Role, PrintedOk;
    assert PcFits(s.threads[j]);
    match s.threads[j].pc
    case Take => TakeShrinks(s, j - 1);
    case Read => ReadShrinks(s, j - 1);
    case Ack => AckShrinks(s, j - 1);
    case Grow => GrowShrinks(s, j - 1);
    case Put => PutShrinks(s, j);
    case Offer => OfferShrinks(s, j);
    case Confirm => ConfirmShrinks(s, j);
    case Close => CloseShrinks(s, j - 1);
  }

  /** Every action of every thread makes the total rank smaller. */
  lemma StepShrinks(s: State, j: nat)
    requires Inv(s) && Ready(s, j)
    ensures var u := Step(s, j); Total(u, |u.threads|) < Total(s, |s.threads|)
  {
    hide Total, Act, Link, Role, PrintedOk;
    ActShrinks(s, j);
    var u := Act(s, j);
    SameTotal(u, Id(s, j), |u.threads|);
  }

  lemma {:induction false} SameTotal(s: State, t: Tid, n: nat)
    requires n <= |s.threads|
    ensures Total(s.(running := t), n) == Total(s, n)
  {
    if n > 0 { SameTotal(s, t, n - 1); }
  }
}
