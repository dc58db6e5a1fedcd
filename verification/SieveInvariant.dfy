/** What holds in every state of the sieve, whatever the order in which threads act. */
module SieveInvariant {
  import opened Streams
  import opened Sched
  import opened Sieve

  predicate Offered(pc: Pc) { pc.Confirm? || pc.ConfirmWait? }
  predicate Holding(pc: Pc) { pc.Read? || pc.Ack? }

  /**
    * The rendezvous on a channel, writer at `w` and reader at `r`: from the offer until the writer is confirmed there
    * is one token, in the first semaphore, in the reader's hands, or in the second one; only the two of them ever wait.
    */
  predicate Sync(ch: Chan, w: Pc, r: Pc, writer: Tid, reader: Tid) {
    && ch.consume.waiters == (if r.TakeWait? then [reader] else [])
    && ch.produce.waiters == (if w.ConfirmWait? then [writer] else [])
    && ch.consume.count >= 0 && ch.produce.count >= 0
    && ch.consume.count + One(Holding(r)) + ch.produce.count == One(Offered(w))
    && (r.TakeWait? ==> ch.consume.count == 0)
    && (w.ConfirmWait? ==> ch.produce.count == 0)
    && ch.sent == ch.got + One(w.Offer?) + ch.consume.count + One(r.Read?)
    && (ch.freed <==> r.Done?)
  }

  /** The channel is on its way through `a`, and shows the last value stored. */
  predicate Shows(ch: Chan, a: seq<CInt>) { ch.sent <= |a| && (ch.sent > 0 ==> ch.value == a[ch.sent - 1]) }

  predicate Link(s: State, c: nat)
    requires |s.threads| == |s.chans| + 1 && c < |s.chans|
  {
    && Sync(s.chans[c], s.threads[c].pc, s.threads[c + 1].pc, Id(s, c), Id(s, c + 1))
    && Shows(s.chans[c], Offers(s.max, c))
  }

  /** How far the source is. */
  predicate SourceOk(max: Limit, pc: Pc, i: nat, sent: nat) {
    && 2 <= i && (i <= max + 1 || i == 2)
    && sent == i - 2 + One(!pc.Put?)
    && (pc.Done? ==> i > max)
  }

  /** How far a filter is: `a` is what comes in, `got` of it are read; what passed of it is sent, or is at hand. */
  predicate FilterOk(t: Thread, a: seq<CInt>, got: nat, sent: nat)
    requires t.Filter?
  {
    && 1 <= got <= |a|
    && a[0] != END && t.prime == ToUnsigned(a[0])
    && match t.pc
       case Take => got < |a| && sent == |Pass(t.prime, a[1..got])|
       case TakeWait => got < |a| && sent == |Pass(t.prime, a[1..got])|
       case Read => got < |a| && sent == |Pass(t.prime, a[1..got])|
       case Ack => got >= 2 && t.value == a[got - 1] && sent == |Pass(t.prime, a[1..got - 1])|
       case Put =>
         && got >= 2 && t.value == a[got - 1]
         && sent == |Pass(t.prime, a[1..got - 1])| && Keeps(t.prime, t.value)
       case Close => got == |a| && sent == |Pass(t.prime, a[1..])|
       case Done => got == |a| && sent == |Pass(t.prime, a[1..])|
       case _ => t.value == a[got - 1] && sent == |Pass(t.prime, a[1..got])|
  }

  predicate SinkOk(pc: Pc, value: CInt, a: seq<CInt>, got: nat) {
    && a != []
    && got == One(pc.Ack? || pc.Grow? || pc.Close? || pc.Done?)
    && (got == 1 ==> value == a[0])
    && (pc.Grow? ==> value != END)
    && (pc.Close? || pc.Done? ==> value == END && |a| == 1)
  }

  predicate RoleOk(max: Limit, t: Thread, a: seq<CInt>, got: nat, sent: nat) {
    match t
    case Source(pc, i) => SourceOk(max, pc, i, sent)
    case Filter(_, _, _) => FilterOk(t, a, got, sent)
    case Sink(pc, value) => SinkOk(pc, value, a, got)
  }

  function Incoming(s: State, j: nat): seq<CInt> { if j == 0 then [] else Takes(s.max, j - 1) }
  function Got(s: State, j: nat): nat { if 0 < j <= |s.chans| then s.chans[j - 1].got else 0 }
  function Sent(s: State, j: nat): nat { if j < |s.chans| then s.chans[j].sent else 0 }

  predicate Role(s: State, j: nat)
    requires j < |s.threads|
  {
    RoleOk(s.max, s.threads[j], Incoming(s, j), Got(s, j), Sent(s, j))
  }

  /** The sink has printed the head of every channel but its own. */
  predicate PrintedOk(s: State) {
    && |s.printed| == |s.chans| - 1
    && forall c | 0 <= c < |s.printed| :: Takes(s.max, c) != [] && s.printed[c] == Takes(s.max, c)[0] != END
  }

  ghost predicate Inv(s: State) {
    && Shape(s)
    && (forall c | 0 <= c < |s.chans| :: Link(s, c))
    && (forall j | 0 <= j < |s.threads| :: Role(s, j))
    && PrintedOk(s)
  }

  lemma InitInv(max: Limit)
    ensures Inv(Init(max))
  {
    OffersAndTakes(max, 0);
  }

  // ---------------------------------------------------------------- an action around one channel

  predicate SameKind(t: Thread, u: Thread) {
    && PcFits(u)
    && (t.Source? <==> u.Source?) && (t.Filter? <==> u.Filter?)
  }

  predicate SameReader(p: Pc, q: Pc) {
    && (p.TakeWait? <==> q.TakeWait?) && (p.Read? <==> q.Read?) && (p.Ack? <==> q.Ack?) && (p.Done? <==> q.Done?)
  }

  predicate SameWriter(p: Pc, q: Pc) {
    && (p.Offer? <==> q.Offer?) && (p.Confirm? <==> q.Confirm?) && (p.ConfirmWait? <==> q.ConfirmWait?)
  }

  function Around(s: State, c: nat, w: Thread, ch: Chan, r: Thread): State
    requires |s.threads| == |s.chans| + 1 && c < |s.chans|
  {
    s.(threads := s.threads[c := w][c + 1 := r], chans := s.chans[c := ch])
  }

  /** What an action around channel `c` has to establish there. */
  ghost predicate Locally(s: State, c: nat, w: Thread, ch: Chan, r: Thread)
    requires |s.threads| == |s.chans| + 1 && c < |s.chans|
  {
    var ok :=
      && SameKind(s.threads[c], w) && SameKind(s.threads[c + 1], r)
      && Sync(ch, w.pc, r.pc, Id(s, c), Id(s, c + 1))
      && Shows(ch, Offers(s.max, c))
      && (c > 0 ==> SameReader(s.threads[c].pc, w.pc))
      && SameWriter(s.threads[c + 1].pc, r.pc)
      && RoleOk(s.max, w, Incoming(s, c), Got(s, c), ch.sent)
      && RoleOk(s.max, r, Incoming(s, c + 1), ch.got, Sent(s, c + 1));
    ok
  }

  lemma AroundInv(s: State, c: nat, w: Thread, ch: Chan, r: Thread)
    requires Inv(s) && c < |s.chans| && Locally(s, c, w, ch, r)
    ensures Inv(Around(s, c, w, ch, r))
  {
    hide Offers, Takes, Shows, RoleOk, Sync, PcFits;
    AroundShape(s, c, w, ch, r);
    AroundLinks(s, c, w, ch, r);
    var u := Around(s, c, w, ch, r);
    forall k | 0 <= k < |u.threads| ensures Role(u, k) { assert Role(s, k); }
  }

  lemma AroundShape(s: State, c: nat, w: Thread, ch: Chan, r: Thread)
    requires Shape(s) && c < |s.chans| && SameKind(s.threads[c], w) && SameKind(s.threads[c + 1], r)
    ensures Shape(Around(s, c, w, ch, r))
  {
    hide PcFits;
  }

  lemma AroundLinks(s: State, c: nat, w: Thread, ch: Chan, r: Thread)
    requires Inv(s) && c < |s.chans| && Locally(s, c, w, ch, r)
    ensures var u := Around(s, c, w, ch, r);
      |u.threads| == |u.chans| + 1 && forall d | 0 <= d < |u.chans| :: Link(u, d)
  {
    hide Offers, Takes, Shows, RoleOk, PcFits, Role, PrintedOk;
    var u := Around(s, c, w, ch, r);
    forall d | 0 <= d < |u.chans| ensures Link(u, d) { assert Link(s, d); }
  }

  // ---------------------------------------------------------------- the rendezvous, action by action

  predicate Idle(pc: Pc) { pc.Take? || pc.Put? || pc.Grow? || pc.Close? }

  lemma SyncTake(ch: Chan, w: Pc, writer: Tid, reader: Tid)
    requires Sync(ch, w, Take, writer, reader)
    ensures var (m, taken) := Acquire(ch.consume, reader);
      Sync(ch.(consume := m), w, if taken then Read else TakeWait, writer, reader)
  {
  }

  /** Acknowledging wakes the writer if it waits for this, and nobody otherwise. */
  lemma SyncAck(ch: Chan, w: Pc, w': Pc, r: Pc, writer: Tid, reader: Tid)
    requires Sync(ch, w, Ack, writer, reader) && Idle(r)
    requires if w.ConfirmWait? then Idle(w') || w'.Done? else w' == w
    ensures var (m, woken) := Release(ch.produce);
      woken == (if w.ConfirmWait? then [writer] else []) && Sync(ch.(produce := m), w', r, writer, reader)
  {
  }

  /** Offering wakes the reader if it waits for this, and nobody otherwise. */
  lemma SyncOffer(ch: Chan, r: Pc, writer: Tid, reader: Tid)
    requires Sync(ch, Offer, r, writer, reader)
    ensures var (m, woken) := Release(ch.consume);
      && woken == (if r.TakeWait? then [reader] else [])
      && Sync(ch.(consume := m), Confirm, if r.TakeWait? then Read else r, writer, reader)
  {
  }

  lemma SyncConfirm(ch: Chan, w: Pc, r: Pc, writer: Tid, reader: Tid)
    requires Sync(ch, Confirm, r, writer, reader) && (Idle(w) || w.Done?)
    ensures var (m, taken) := Acquire(ch.produce, writer);
      Sync(ch.(produce := m), if taken then w else ConfirmWait, r, writer, reader)
  {
  }

  // ---------------------------------------------------------------- the actions

  lemma Facts(s: State, c: nat)
    requires Inv(s) && c < |s.chans|
    ensures Shape(s) && Link(s, c) && Role(s, c) && Role(s, c + 1)
    ensures Takes(s.max, c) <= Offers(s.max, c) && EndsOnce(Takes(s.max, c))
    ensures |Offers(s.max, c)| == |Takes(s.max, c)| + if s.max == 0xFFFF_FFFF && c == 0 then 1 else 0
    ensures s.chans[c].got <= s.chans[c].sent <= |Offers(s.max, c)|
  {
    hide Offers, Takes, PcFits, RoleOk, EndsOnce;
    OffersAndTakes(s.max, c);
  }

  lemma Kinds(s: State, c: nat)
    requires Shape(s) && c < |s.chans|
    ensures PcFits(s.threads[c]) && PcFits(s.threads[c + 1]) && !s.threads[c].Sink? && !s.threads[c + 1].Source?
    ensures c > 0 ==> s.threads[c].Filter?
    ensures Position(s, Id(s, c)) == c && Position(s, Id(s, c + 1)) == c + 1
  {
  }

  // ---- Take

  lemma TakeAround(s: State, c: nat)
    requires Shape(s) && c < |s.chans| && s.threads[c + 1].pc.Take?
    ensures var (m, taken) := Acquire(s.chans[c].consume, Id(s, c + 1));
      var r := Move(s.threads[c + 1], if taken then Read else TakeWait);
      Act(s, c + 1) == Around(s, c, s.threads[c], s.chans[c].(consume := m), r)
  {
    hide PcFits;
  }

  lemma TakeLocal(s: State, c: nat)
    requires Inv(s) && c < |s.chans| && s.threads[c + 1].pc.Take?
    ensures var (m, taken) := Acquire(s.chans[c].consume, Id(s, c + 1));
      var r := Move(s.threads[c + 1], if taken then Read else TakeWait);
      Locally(s, c, s.threads[c], s.chans[c].(consume := m), r)
  {
    hide Inv, Sync, Offers, Takes, EndsOnce, Id, RoleOk;
    Facts(s, c);
    Kinds(s, c);
    SyncTake(s.chans[c], s.threads[c].pc, Id(s, c), Id(s, c + 1));
    TakeRole(s.max, s.threads[c + 1], Incoming(s, c + 1), Got(s, c + 1), Sent(s, c + 1));
  }

  lemma TakeRole(max: Limit, t: Thread, a: seq<CInt>, got: nat, sent: nat)
    requires t.pc.Take? && !t.Source? && RoleOk(max, t, a, got, sent)
    ensures RoleOk(max, Move(t, Read), a, got, sent) && RoleOk(max, Move(t, TakeWait), a, got, sent)
  {
  }

  lemma TakeInv(s: State, c: nat)
    requires Inv(s) && c < |s.chans| && s.threads[c + 1].pc.Take?
    ensures Inv(Act(s, c + 1))
  {
    TakeAround(s, c);
    TakeLocal(s, c);
    var (m, taken) := Acquire(s.chans[c].consume, Id(s, c + 1));
    var ch, r := s.chans[c].(consume := m), Move(s.threads[c + 1], if taken then Read else TakeWait);
    hide *;
    AroundInv(s, c, s.threads[c], ch, r);
  }

  // ---- Read

  lemma ReadAround(s: State, c: nat)
    requires Shape(s) && c < |s.chans| && s.threads[c + 1].pc.Read?
    ensures var ch, r := s.chans[c].(got := s.chans[c].got + 1), Having(s.threads[c + 1], Ack, s.chans[c].value);
      Act(s, c + 1) == Around(s, c, s.threads[c], ch, r)
  {
    hide PcFits;
  }

  lemma ReadLocal(s: State, c: nat)
    requires Inv(s) && c < |s.chans| && s.threads[c + 1].pc.Read?
    ensures !s.threads[c + 1].Source?
    ensures var ch, r := s.chans[c].(got := s.chans[c].got + 1), Having(s.threads[c + 1], Ack, s.chans[c].value);
      Locally(s, c, s.threads[c], ch, r)
  {
    hide Inv, Offers, Takes, RoleOk, EndsOnce, Id;
    Facts(s, c);
    Kinds(s, c);
    ReadRole(s.max, s.threads[c + 1], Incoming(s, c + 1), s.chans[c].got, s.chans[c].value, Sent(s, c + 1));
  }

  lemma ReadRole(max: Limit, t: Thread, a: seq<CInt>, got: nat, v: CInt, sent: nat)
    requires t.pc.Read? && !t.Source? && RoleOk(max, t, a, got, sent) && (got < |a| ==> v == a[got])
    ensures RoleOk(max, Having(t, Ack, v), a, got + 1, sent)
  {
    assert got > 0 ==> a[1..got + 1 - 1] == a[1..got];
  }

  lemma ReadInv(s: State, c: nat)
    requires Inv(s) && c < |s.chans| && s.threads[c + 1].pc.Read?
    ensures Inv(Act(s, c + 1))
  {
    ReadAround(s, c);
    ReadLocal(s, c);
    var ch, r := s.chans[c].(got := s.chans[c].got + 1), Having(s.threads[c + 1], Ack, s.chans[c].value);
    hide *;
    AroundInv(s, c, s.threads[c], ch, r);
  }

  // ---- Ack

  lemma AckAround(s: State, c: nat)
    requires Shape(s) && c < |s.chans| && s.threads[c + 1].pc.Ack?
    requires s.chans[c].produce.waiters == if s.threads[c].pc.ConfirmWait? then [Id(s, c)] else []
    ensures var (m, _) := Release(s.chans[c].produce);
      var w := if s.threads[c].pc.ConfirmWait? then AfterConfirm(s.max, s.threads[c]) else s.threads[c];
      Act(s, c + 1) == Around(s, c, w, s.chans[c].(produce := m), AfterAck(s.threads[c + 1]))
  {
    Kinds(s, c);
    hide PcFits, Keeps;
  }

  lemma AckLocal(s: State, c: nat)
    requires Inv(s) && c < |s.chans| && s.threads[c + 1].pc.Ack?
    ensures !s.threads[c + 1].Source?
    ensures var (m, _) := Release(s.chans[c].produce);
      var w := if s.threads[c].pc.ConfirmWait? then AfterConfirm(s.max, s.threads[c]) else s.threads[c];
      Locally(s, c, w, s.chans[c].(produce := m), AfterAck(s.threads[c + 1]))
  {
    hide Inv, Offers, Takes, EndsOnce, Id, RoleOk, Keeps;
    Facts(s, c);
    Kinds(s, c);
    var w, t := s.threads[c], s.threads[c + 1];
    AfterAckRole(s.max, t, Incoming(s, c + 1), Got(s, c + 1), Sent(s, c + 1));
    if w.pc.ConfirmWait? {
      WriterGoesOn(s, c);
      AfterConfirmKind(s.max, w);
    }
    var w' := if w.pc.ConfirmWait? then AfterConfirm(s.max, w) else w;
    SyncAck(s.chans[c], w.pc, w'.pc, AfterAck(t).pc, Id(s, c), Id(s, c + 1));
  }

  lemma AckInv(s: State, c: nat)
    requires Inv(s) && c < |s.chans| && s.threads[c + 1].pc.Ack?
    ensures Inv(Act(s, c + 1))
  {
    assert Link(s, c);
    AckAround(s, c);
    AckLocal(s, c);
    var (m, _) := Release(s.chans[c].produce);
    var w := if s.threads[c].pc.ConfirmWait? then AfterConfirm(s.max, s.threads[c]) else s.threads[c];
    var ch, r := s.chans[c].(produce := m), AfterAck(s.threads[c + 1]);
    hide *;
    AroundInv(s, c, w, ch, r);
  }

  lemma AfterAckRole(max: Limit, t: Thread, a: seq<CInt>, got: nat, sent: nat)
    requires t.pc.Ack? && !t.Source? && EndsOnce(a) && RoleOk(max, t, a, got, sent)
    ensures RoleOk(max, AfterAck(t), a, got, sent)
  {
    if t.Filter? {
      PassGrows(t.prime, a, got - 1);
    } else if t.value == END {
      assert a[0] == END;
    }
  }

  lemma AfterConfirmRole(max: Limit, t: Thread, a: seq<CInt>, got: nat, sent: nat)
    requires Offered(t.pc) && !t.Sink? && (t.Filter? ==> EndsOnce(a)) && RoleOk(max, t, a, got, sent)
    ensures RoleOk(max, AfterConfirm(max, t), a, got, sent)
  {
    if t.Filter? && got == |a| { assert a[1..got] == a[1..]; }
  }

  lemma AfterConfirmKind(max: Limit, t: Thread)
    requires Offered(t.pc) && !t.Sink?
    ensures var u := AfterConfirm(max, t);
      SameKind(t, u) && (t.Filter? ==> SameReader(t.pc, u.pc)) && (Idle(u.pc) || u.pc.Done?)
  {
  }

  lemma WriterGoesOn(s: State, c: nat)
    requires Inv(s) && c < |s.chans| && Offered(s.threads[c].pc)
    ensures !s.threads[c].Sink?
    ensures RoleOk(s.max, AfterConfirm(s.max, s.threads[c]), Incoming(s, c), Got(s, c), Sent(s, c))
  {
    hide Inv, Offers, Takes, EndsOnce, RoleOk, Sync, Shows, Id;
    Facts(s, c);
    Kinds(s, c);
    if c > 0 { Facts(s, c - 1); }
    AfterConfirmRole(s.max, s.threads[c], Incoming(s, c), Got(s, c), Sent(s, c));
  }

  // ---- Put

  lemma PutAround(s: State, c: nat)
    requires Shape(s) && c < |s.chans| && s.threads[c].pc.Put?
    ensures var ch := s.chans[c].(value := Outgoing(s.max, s.threads[c]), sent := s.chans[c].sent + 1);
      Act(s, c) == Around(s, c, Move(s.threads[c], Offer), ch, s.threads[c + 1])
  {
    hide PcFits, Outgoing;
  }

  lemma PutLocal(s: State, c: nat)
    requires Inv(s) && c < |s.chans| && s.threads[c].pc.Put?
    ensures var ch := s.chans[c].(value := Outgoing(s.max, s.threads[c]), sent := s.chans[c].sent + 1);
      Locally(s, c, Move(s.threads[c], Offer), ch, s.threads[c + 1])
  {
    hide Inv, Offers, Takes, EndsOnce, RoleOk, Outgoing, Id;
    Facts(s, c);
    Kinds(s, c);
    PutValue(s, c);
  }

  lemma PutInv(s: State, c: nat)
    requires Inv(s) && c < |s.chans| && s.threads[c].pc.Put?
    ensures Inv(Act(s, c))
  {
    PutAround(s, c);
    PutLocal(s, c);
    var ch := s.chans[c].(value := Outgoing(s.max, s.threads[c]), sent := s.chans[c].sent + 1);
    var w, r := Move(s.threads[c], Offer), s.threads[c + 1];
    hide *;
    AroundInv(s, c, w, ch, r);
  }

  /** The value about to be stored is the next one of what the channel carries. */
  lemma PutValue(s: State, j: nat)
    requires Inv(s) && j < |s.chans| && s.threads[j].pc.Put?
    ensures s.chans[j].sent < |Offers(s.max, j)| && Offers(s.max, j)[s.chans[j].sent] == Outgoing(s.max, s.threads[j])
    ensures RoleOk(s.max, Move(s.threads[j], Offer), Incoming(s, j), Got(s, j), s.chans[j].sent + 1)
  {
    hide Inv, EndsOnce;
    Facts(s, j);
    var t := s.threads[j];
    Kinds(s, j);
    if j == 0 {
      assert Offers(s.max, 0) == Produced(s.max);
      SourcePuts(s.max, t, s.chans[0].sent);
    } else {
      OffersAndTakes(s.max, j - 1);
      FilterPuts(t, Incoming(s, j), Got(s, j), s.chans[j].sent);
    }
  }

  lemma SourcePuts(max: Limit, t: Thread, sent: nat)
    requires t.Source? && t.pc.Put? && SourceOk(max, t.pc, t.i, sent)
    ensures sent < |Produced(max)| && Produced(max)[sent] == Outgoing(max, t)
    ensures SourceOk(max, Offer, t.i, sent + 1)
  {
  }

  lemma FilterPuts(t: Thread, a: seq<CInt>, got: nat, sent: nat)
    requires t.Filter? && t.pc.Put? && FilterOk(t, a, got, sent)
    ensures sent < |Next(a)| && Next(a)[sent] == t.value
    ensures Move(t, Offer).Filter? && FilterOk(Move(t, Offer), a, got, sent + 1)
  {
    PassGrows(t.prime, a, got - 1);
    var p, q := Pass(t.prime, a[1..got - 1]), Pass(t.prime, a[1..got]);
    hide Pass;
    assert sent == |p| && q == p + [t.value] && q[sent] == t.value;
  }

  // ---- Offer

  lemma OfferAround(s: State, c: nat)
    requires Shape(s) && c < |s.chans| && s.threads[c].pc.Offer?
    requires s.chans[c].consume.waiters == if s.threads[c + 1].pc.TakeWait? then [Id(s, c + 1)] else []
    ensures var (m, _) := Release(s.chans[c].consume);
      var r := if s.threads[c + 1].pc.TakeWait? then Move(s.threads[c + 1], Read) else s.threads[c + 1];
      Act(s, c) == Around(s, c, Move(s.threads[c], Confirm), s.chans[c].(consume := m), r)
  {
    Kinds(s, c);
    hide PcFits;
  }

  lemma OfferLocal(s: State, c: nat)
    requires Inv(s) && c < |s.chans| && s.threads[c].pc.Offer?
    ensures var (m, _) := Release(s.chans[c].consume);
      var r := if s.threads[c + 1].pc.TakeWait? then Move(s.threads[c + 1], Read) else s.threads[c + 1];
      Locally(s, c, Move(s.threads[c], Confirm), s.chans[c].(consume := m), r)
  {
    hide Inv, Sync, Offers, Takes, Pass, EndsOnce, Id, Keeps;
    Facts(s, c);
    Kinds(s, c);
    SyncOffer(s.chans[c], s.threads[c + 1].pc, Id(s, c), Id(s, c + 1));
  }

  lemma OfferInv(s: State, c: nat)
    requires Inv(s) && c < |s.chans| && s.threads[c].pc.Offer?
    ensures Inv(Act(s, c))
  {
    assert Link(s, c);
    OfferAround(s, c);
    OfferLocal(s, c);
    var (m, _) := Release(s.chans[c].consume);
    var r := if s.threads[c + 1].pc.TakeWait? then Move(s.threads[c + 1], Read) else s.threads[c + 1];
    var w, ch := Move(s.threads[c], Confirm), s.chans[c].(consume := m);
    hide *;
    AroundInv(s, c, w, ch, r);
  }

  // ---- Confirm

  lemma ConfirmAround(s: State, c: nat)
    requires Shape(s) && c < |s.chans| && s.threads[c].pc.Confirm? && !s.threads[c].Sink?
    ensures var (m, taken) := Acquire(s.chans[c].produce, Id(s, c));
      var w := if taken then AfterConfirm(s.max, s.threads[c]) else Move(s.threads[c], ConfirmWait);
      Act(s, c) == Around(s, c, w, s.chans[c].(produce := m), s.threads[c + 1])
  {
    hide PcFits, AfterConfirm;
  }

  lemma ConfirmLocal(s: State, c: nat)
    requires Inv(s) && c < |s.chans| && s.threads[c].pc.Confirm?
    ensures !s.threads[c].Sink?
    ensures var (m, taken) := Acquire(s.chans[c].produce, Id(s, c));
      var w := if taken then AfterConfirm(s.max, s.threads[c]) else Move(s.threads[c], ConfirmWait);
      Locally(s, c, w, s.chans[c].(produce := m), s.threads[c + 1])
  {
    hide Inv, Offers, Takes, EndsOnce, Id, RoleOk, Sync, Shows, PcFits, AfterConfirm;
    Facts(s, c);
    Kinds(s, c);
    var (m, taken) := Acquire(s.chans[c].produce, Id(s, c));
    var t, ch := s.threads[c], s.chans[c].(produce := m);
    AfterConfirmKind(s.max, t);
    SyncConfirm(s.chans[c], AfterConfirm(s.max, t).pc, s.threads[c + 1].pc, Id(s, c), Id(s, c + 1));
    ShowsSame(s.chans[c], ch, Offers(s.max, c));
    WriterGoesOn(s, c);
    WaitRole(s.max, t, Incoming(s, c), Got(s, c), Sent(s, c));
    ConfirmWaitFits(t);
    WriterLocally(s, c, if taken then AfterConfirm(s.max, t) else Move(t, ConfirmWait), ch);
  }

  lemma ShowsSame(x: Chan, y: Chan, a: seq<CInt>)
    requires Shows(x, a) && x.sent == y.sent && x.value == y.value
    ensures Shows(y, a)
  {
  }

  /** The reader has nothing to do with it. */
  lemma WriterLocally(s: State, c: nat, w: Thread, ch: Chan)
    requires Inv(s) && c < |s.chans| && ch.got == s.chans[c].got
    requires SameKind(s.threads[c], w) && (c > 0 ==> SameReader(s.threads[c].pc, w.pc))
    requires Sync(ch, w.pc, s.threads[c + 1].pc, Id(s, c), Id(s, c + 1)) && Shows(ch, Offers(s.max, c))
    requires RoleOk(s.max, w, Incoming(s, c), Got(s, c), ch.sent)
    ensures Locally(s, c, w, ch, s.threads[c + 1])
  {
    hide Inv, Offers, Takes, EndsOnce, Id, RoleOk, Sync, Shows, PcFits;
    Facts(s, c);
    Kinds(s, c);
  }

  lemma ConfirmWaitFits(t: Thread)
    requires t.pc.Confirm? && PcFits(t)
    ensures PcFits(Move(t, ConfirmWait))
  {
  }

  lemma WaitRole(max: Limit, t: Thread, a: seq<CInt>, got: nat, sent: nat)
    requires t.pc.Confirm? && RoleOk(max, t, a, got, sent)
    ensures RoleOk(max, Move(t, ConfirmWait), a, got, sent)
  {
  }

  lemma ConfirmInv(s: State, c: nat)
    requires Inv(s) && c < |s.chans| && s.threads[c].pc.Confirm?
    ensures Inv(Act(s, c))
  {
    ConfirmLocal(s, c);
    ConfirmAround(s, c);
    var (m, taken) := Acquire(s.chans[c].produce, Id(s, c));
    var w := if taken then AfterConfirm(s.max, s.threads[c]) else Move(s.threads[c], ConfirmWait);
    var ch, r := s.chans[c].(produce := m), s.threads[c + 1];
    hide *;
    AroundInv(s, c, w, ch, r);
  }

  // ---- Close

  lemma CloseInv(s: State, c: nat)
    requires Inv(s) && c < |s.chans| && s.threads[c + 1].pc.Close?
    ensures Inv(Act(s, c + 1))
  {
    CloseLocal(s, c);
    var ch, r := s.chans[c].(freed := true), Move(s.threads[c + 1], Done);
    CloseAround(s, c);
    hide *;
    AroundInv(s, c, s.threads[c], ch, r);
  }

  lemma CloseAround(s: State, c: nat)
    requires Shape(s) && c < |s.chans| && s.threads[c + 1].pc.Close?
    ensures var ch, r := s.chans[c].(freed := true), Move(s.threads[c + 1], Done);
      Act(s, c + 1) == Around(s, c, s.threads[c], ch, r)
  {
    hide PcFits;
  }

  lemma CloseLocal(s: State, c: nat)
    requires Inv(s) && c < |s.chans| && s.threads[c + 1].pc.Close?
    ensures Locally(s, c, s.threads[c], s.chans[c].(freed := true), Move(s.threads[c + 1], Done))
  {
    hide Inv, Offers, Takes, Pass, Id, EndsOnce;
    Facts(s, c);
    Kinds(s, c);
  }

  // ---- Grow

  lemma GrowInv(s: State, c: nat)
    requires Inv(s) && c == |s.chans| - 1 && s.threads[c + 1].pc.Grow?
    ensures Inv(Act(s, c + 1))
  {
    hide RoleOk, PcFits, Link, PrintedOk, EndsOnce;
    GrowShape(s, c);
    GrowRoles(s, c);
    GrowLinks(s, c);
    var u := Act(s, c + 1);
    forall k | 0 <= k < |u.threads| ensures Role(u, k) { if k < |s.threads| { assert Role(s, k); } }
  }

  lemma GrowShape(s: State, c: nat)
    requires Inv(s) && c == |s.chans| - 1 && s.threads[c + 1].pc.Grow?
    ensures Shape(Act(s, c + 1)) && PrintedOk(Act(s, c + 1)) && Act(s, c + 1) == Grown(s)
  {
    hide Offers, Takes, Sync, Shows, EndsOnce;
    Facts(s, c);
  }

  lemma GrowLinks(s: State, c: nat)
    requires Inv(s) && c == |s.chans| - 1 && s.threads[c + 1].pc.Grow?
    ensures forall d | 0 <= d < |Grown(s).chans| :: |Grown(s).threads| == |Grown(s).chans| + 1 && Link(Grown(s), d)
  {
    hide Offers, Takes, PcFits, RoleOk, Act, EndsOnce;
    Facts(s, c);
    var u := Grown(s);
    forall d | 0 <= d < |u.chans| ensures |u.threads| == |u.chans| + 1 && Link(u, d) {
      if d < |s.chans| { assert Link(s, d); }
    }
  }

  lemma GrowRoles(s: State, c: nat)
    requires Inv(s) && c == |s.chans| - 1 && s.threads[c + 1].pc.Grow?
    ensures Role(Act(s, c + 1), c + 1) && Role(Act(s, c + 1), c + 2)
  {
    hide Inv, Offers, Takes, Keeps, ToUnsigned;
    Facts(s, c);
    Kinds(s, c);
    OffersAndTakes(s.max, c + 1);
    var u := Act(s, c + 1);
    assert u.threads[c + 1].prime == ToUnsigned(Incoming(s, c + 1)[0]);
    assert Pass(u.threads[c + 1].prime, Incoming(s, c + 1)[1..1]) == [];
  }

  // ---------------------------------------------------------------- every step

  lemma ActInv(s: State, j: nat)
    requires Inv(s) && Ready(s, j)
    ensures Inv(Act(s, j))
  {
    assert PcFits(s.threads[j]);
    var pc := s.threads[j].pc;
    match pc
    case Take => TakeInv(s, j - 1);
    case Read => ReadInv(s, j - 1);
    case Ack => AckInv(s, j - 1);
    case Grow => GrowInv(s, j - 1);
    case Put => PutInv(s, j);
    case Offer => OfferInv(s, j);
    case Confirm => ConfirmInv(s, j);
    case Close => CloseInv(s, j - 1);
    hide *;
  }

  /** Every action of every thread keeps all of it. */
  lemma StepInv(s: State, j: nat)
    requires Inv(s) && Ready(s, j)
    ensures Inv(Step(s, j))
  {
    ActInv(s, j);
    OnlyRuns(Act(s, j), Id(s, j));
    hide Act, Inv;
  }

  lemma OnlyRuns(s: State, t: Tid)
    requires Inv(s)
    ensures Inv(s.(running := t))
  {
    var u := s.(running := t);
    hide Sync, Shows, RoleOk, Offers, Takes, PcFits;
    forall d | 0 <= d < |u.chans| ensures Link(u, d) { assert Link(s, d); }
    forall k | 0 <= k < |u.threads| ensures Role(u, k) { assert Role(s, k); }
  }
}
