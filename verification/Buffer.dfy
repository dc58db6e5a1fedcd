/** The bounded buffer: a producer and a consumer over sixteen slots, three semaphores, batches of any size. */
module Buffer {
  import opened Sched

  const SLOTS: nat := 16
  const PRODUCER: Tid := 2
  const CONSUMER: Tid := 3

  /** Number of values of a `size_t`. */
  const SIZE_RANGE: nat := 0x1_0000_0000_0000_0000

  /** The maximum is given as an `unsigned int`. */
  type Limit = n: nat | n <= 0xFFFF_FFFF

  /** The next atomic action of a thread, or where it is blocked. */
  datatype Pc =
    | Next     // choose a batch, or finish
    | Get      // wait for a free slot (producer) or a full one (consumer)
    | GetWait
    | Move     // put or take an item
    | Lock
    | LockWait
    | Count    // change the size
    | Unlock
    | Signal   // pass the slot on to the other thread
    | Done

  /** Item `i` of a batch of `n`. */
  datatype Worker = Worker(pc: Pc, i: nat, n: nat)

  /** `taken` records what the consumer took; no thread looks at it. */
  datatype State = State(
    maxcount: Limit, producer: Worker, count: nat, consumer: Worker, out: nat,
    slots: seq<nat>, head: nat, tail: nat, size: int,
    full: Sem, empty: Sem, mutex: Sem, taken: seq<nat>)

  function Init(maxcount: Limit): State {
    State(maxcount, Worker(Next, 0, 0), 0, Worker(Next, 0, 0), 0, seq(SLOTS, _ => 0), 0, 0, 0,
          Sem(SLOTS, []), Sem(0, []), Sem(1, []), [])
  }

  predicate Ready(w: Worker) { !w.pc.GetWait? && !w.pc.LockWait? && !w.pc.Done? }

  function Clamp(x: nat, y: nat): nat { if x <= y then x else y }

  /** A subtraction of `size_t`s. */
  function Minus(x: nat, y: nat): nat { (x - y) % SIZE_RANGE }

  /** After an item: the next one of the batch, or the next batch. */
  function NextItem(w: Worker): Worker { if w.i + 1 < w.n then Worker(Get, w.i + 1, w.n) else w.(pc := Next) }

  /** A blocked thread goes on as if its wait had succeeded. */
  function Resume(w: Worker): Worker {
    if w.pc.GetWait? then w.(pc := Move) else if w.pc.LockWait? then w.(pc := Count) else w
  }

  function Wake(s: State, woken: seq<Tid>): State {
    if woken == [] then s
    else if woken[0] == PRODUCER then s.(producer := Resume(s.producer))
    else if woken[0] == CONSUMER then s.(consumer := Resume(s.consumer))
    else s
  }

  predicate Shape(s: State) { |s.slots| == SLOTS && s.head < SLOTS && s.tail < SLOTS }

  /** One atomic action of the producer; `batch` is the random number, when it chooses a batch. */
  function Produce(s: State, batch: nat): State
    requires Shape(s) && Ready(s.producer)
  {
    var w := s.producer;
    match w.pc
    case Next =>
      if s.count < s.maxcount then s.(producer := Worker(Get, 0, Clamp(batch, Minus(s.maxcount, s.count))))
      else s.(producer := w.(pc := Done))
    case Get =>
      var (m, taken) := Acquire(s.full, PRODUCER);
      s.(full := m, producer := w.(pc := if taken then Move else GetWait))
    case Move =>
      s.(slots := s.slots[s.head := s.count], count := s.count + 1, head := (s.head + 1) % SLOTS,
         producer := w.(pc := Lock))
    case Lock =>
      var (m, taken) := Acquire(s.mutex, PRODUCER);
      s.(mutex := m, producer := w.(pc := if taken then Count else LockWait))
    case Count => s.(size := s.size + 1, producer := w.(pc := Unlock))
    case Unlock =>
      var (m, woken) := Release(s.mutex);
      Wake(s.(mutex := m, producer := w.(pc := Signal)), woken)
    case Signal =>
      var (m, woken) := Release(s.empty);
      Wake(s.(empty := m, producer := NextItem(w)), woken)
  }

  /** One atomic action of the consumer. */
  function Consume(s: State, batch: nat): State
    requires Shape(s) && Ready(s.consumer)
  {
    var w := s.consumer;
    match w.pc
    case Next =>
      if s.out < Minus(s.maxcount, 1) then
        s.(consumer := Worker(Get, 0, Clamp(batch, Minus(Minus(s.maxcount, s.out), 1))))
      else s.(consumer := w.(pc := Done))
    case Get =>
      var (m, taken) := Acquire(s.empty, CONSUMER);
      s.(empty := m, consumer := w.(pc := if taken then Move else GetWait))
    case Move =>
      var x := s.slots[s.tail];
      s.(out := x, taken := s.taken + [x], tail := (s.tail + 1) % SLOTS, consumer := w.(pc := Lock))
    case Lock =>
      var (m, taken) := Acquire(s.mutex, CONSUMER);
      s.(mutex := m, consumer := w.(pc := if taken then Count else LockWait))
    case Count => s.(size := s.size - 1, consumer := w.(pc := Unlock))
    case Unlock =>
      var (m, woken) := Release(s.mutex);
      Wake(s.(mutex := m, consumer := w.(pc := Signal)), woken)
    case Signal =>
      var (m, woken) := Release(s.full);
      Wake(s.(full := m, consumer := NextItem(w)), woken)
  }

  // ---------------------------------------------------------------- what every step keeps

  /** The item is moved, and not yet signalled. */
  predicate Moved(pc: Pc) { pc.Lock? || pc.LockWait? || pc.Count? || pc.Unlock? || pc.Signal? }
  predicate Uncounted(pc: Pc) { pc.Lock? || pc.LockWait? || pc.Count? }
  predicate InMutex(pc: Pc) { pc.Count? || pc.Unlock? }

  /** Slots `k` to `p` of the endless tape hold their own numbers. */
  ghost predicate Holds(slots: seq<nat>, k: nat, p: nat) {
    |slots| == SLOTS && forall j | k <= j < p :: slots[j % SLOTS] == j
  }

  ghost predicate InOrder(taken: seq<nat>) { forall j | 0 <= j < |taken| :: taken[j] == j }

  /** A semaphore that gives out the difference of two counters to one thread. */
  predicate Counts(m: Sem, units: int, waits: bool, t: Tid) {
    m.count == units >= 0 && m.waiters == (if waits then [t] else []) && (waits ==> units == 0)
  }

  predicate MutexOk(m: Sem, p: Pc, c: Pc) {
    && 0 <= m.count && m.count + One(InMutex(p)) + One(InMutex(c)) == 1
    && (p.LockWait? || c.LockWait? ==> m.count == 0)
    && m.waiters == (if p.LockWait? then [PRODUCER] else []) + (if c.LockWait? then [CONSUMER] else [])
  }

  /** `done` items are moved; the current batch stays within `bound`. */
  predicate BatchOk(w: Worker, done: nat, bound: nat) {
    || w.pc.Next?
    || w.pc.Done?
    || (w.i < w.n && w.i + One(Moved(w.pc)) <= done && done - w.i - One(Moved(w.pc)) + w.n <= bound)
  }

  /** Everything put is in the slots or taken, in order. */
  ghost predicate Tape(s: State) {
    var p, k := s.count, |s.taken|;
    && k <= p <= s.maxcount
    && s.head == p % SLOTS && s.tail == k % SLOTS
    && Holds(s.slots, k, p)
    && InOrder(s.taken)
    && s.out == (if k == 0 then 0 else k - 1)
  }

  /** Where the units are, with `p` items put and `k` taken. */
  predicate Tokens(s: State, p: nat, k: nat) {
    var w, v := s.producer.pc, s.consumer.pc;
    && Counts(s.full, SLOTS - p - One(w.Move?) + k - One(Moved(v)), w.GetWait?, PRODUCER)
    && Counts(s.empty, p - One(Moved(w)) - k - One(v.Move?), v.GetWait?, CONSUMER)
    && MutexOk(s.mutex, w, v)
    && s.size == p - One(Uncounted(w)) - (k - One(Uncounted(v)))
  }

  /** Batches stay within what there is to do; a worker stops when that is done, or when the test fails at once. */
  predicate Plan(s: State, p: nat, k: nat) {
    && BatchOk(s.producer, p, s.maxcount)
    && (s.producer.pc.Done? ==> p == s.maxcount)
    && (s.maxcount >= 1 ==> BatchOk(s.consumer, k, s.maxcount))
    && (s.maxcount == 1 ==> k == 0 && (s.consumer.pc.Next? || s.consumer.pc.Done?))
    && (s.consumer.pc.Done? ==> s.maxcount >= 1 && k == if s.maxcount == 1 then 0 else s.maxcount)
  }

  ghost predicate Inv(s: State) { Tape(s) && Tokens(s, s.count, |s.taken|) && Plan(s, s.count, |s.taken|) }

  lemma InitInv(maxcount: Limit)
    ensures Inv(Init(maxcount)) && Shape(Init(maxcount))
  {
  }

  lemma PutHolds(slots: seq<nat>, k: nat, p: nat)
    requires Holds(slots, k, p) && k <= p < k + SLOTS
    ensures Holds(slots[p % SLOTS := p], k, p + 1)
  {
    forall j | k <= j < p + 1 ensures slots[p % SLOTS := p][j % SLOTS] == j {
      if j < p { Apart(j, p); }
    }
  }

  lemma Apart(j: nat, p: nat)
    requires j < p < j + SLOTS
    ensures j % SLOTS != p % SLOTS
  {
  }

  lemma TakeHolds(slots: seq<nat>, k: nat, p: nat)
    requires Holds(slots, k, p) && k < p
    ensures slots[k % SLOTS] == k && Holds(slots, k + 1, p)
  {
  }

  lemma TakeInOrder(taken: seq<nat>)
    requires InOrder(taken)
    ensures InOrder(taken + [|taken|])
  {
  }

  lemma InvShape(s: State)
    requires Inv(s)
    ensures Shape(s)
  {
  }

  lemma AcquireCounts(m: Sem, units: int, t: Tid)
    requires Counts(m, units, false, t)
    ensures var (u, taken) := Acquire(m, t); Counts(u, units - One(taken), !taken, t)
  {
  }

  lemma ReleaseCounts(m: Sem, units: int, waits: bool, t: Tid)
    requires Counts(m, units, waits, t)
    ensures var (u, woken) := Release(m);
      Counts(u, units + 1 - One(waits), false, t) && woken == if waits then [t] else []
  {
  }

  lemma SameMutex(m: Sem, p: Pc, c: Pc, p': Pc, c': Pc)
    requires MutexOk(m, p, c) && (InMutex(p) <==> InMutex(p')) && (InMutex(c) <==> InMutex(c'))
    requires (p.LockWait? <==> p'.LockWait?) && (c.LockWait? <==> c'.LockWait?)
    ensures MutexOk(m, p', c')
  {
  }

  /** At most one of the two is between `Lock` and `Unlock`; the other one waits, if it has to. */
  lemma LockMutex(m: Sem, p: Pc, c: Pc)
    requires MutexOk(m, p, c)
    ensures p.Lock? ==> var (u, taken) := Acquire(m, PRODUCER); MutexOk(u, if taken then Count else LockWait, c)
    ensures c.Lock? ==> var (u, taken) := Acquire(m, CONSUMER); MutexOk(u, p, if taken then Count else LockWait)
  {
  }

  lemma UnlockMutex(m: Sem, p: Pc, c: Pc)
    requires MutexOk(m, p, c)
    ensures p.Unlock? ==> var (u, woken) := Release(m);
      MutexOk(u, Signal, if c.LockWait? then Count else c) && woken == if c.LockWait? then [CONSUMER] else []
    ensures c.Unlock? ==> var (u, woken) := Release(m);
      MutexOk(u, if p.LockWait? then Count else p, Signal) && woken == if p.LockWait? then [PRODUCER] else []
  {
  }

  lemma MinusIs(x: nat, y: nat)
    requires x < SIZE_RANGE && y < SIZE_RANGE
    ensures x >= y ==> Minus(x, y) == x - y
    ensures x < y ==> Minus(x, y) == SIZE_RANGE + x - y
  {
  }

  lemma ProduceRoom(s: State)
    requires Inv(s) && s.producer.pc.Move?
    ensures s.count < |s.taken| + SLOTS && s.count < s.maxcount
  {
    hide Holds, InOrder, MutexOk;
  }

  lemma ProduceTape(s: State, batch: nat)
    requires Inv(s) && Shape(s) && Ready(s.producer)
    ensures Tape(Produce(s, batch))
  {
    hide Holds, InOrder, Clamp, Minus, Tokens, Plan, NextItem, Acquire, Release, Resume;
    if s.producer.pc.Move? {
      ProduceRoom(s);
      NextSlot(s.count);
      PutHolds(s.slots, |s.taken|, s.count);
    }
  }

  lemma ProduceTokens(s: State, batch: nat)
    requires Inv(s) && Shape(s) && Ready(s.producer)
    ensures var u := Produce(s, batch); Tokens(u, u.count, |u.taken|)
  {
    hide Tape, Plan, Clamp, Minus, Shape, Counts, MutexOk, Acquire, Release;
    var w, v := s.producer.pc, s.consumer.pc;
    var u := Produce(s, batch);
    match s.producer.pc
    case Get =>
      AcquireCounts(s.full, SLOTS - s.count + |s.taken| - One(Moved(v)), PRODUCER);
      SameMutex(s.mutex, w, v, u.producer.pc, u.consumer.pc);
    case Lock => LockMutex(s.mutex, w, v);
    case Unlock => UnlockMutex(s.mutex, w, v);
    case Signal =>
      ReleaseCounts(s.empty, s.count - One(Moved(w)) - |s.taken| - One(v.Move?), v.GetWait?, CONSUMER);
      SameMutex(s.mutex, w, v, u.producer.pc, u.consumer.pc);
    case _ => SameMutex(s.mutex, w, v, u.producer.pc, u.consumer.pc);
  }

  lemma ProducePlan(s: State, batch: nat)
    requires Inv(s) && Shape(s) && Ready(s.producer) && 1 <= batch <= SLOTS
    ensures var u := Produce(s, batch); Plan(u, u.count, |u.taken|)
  {
    hide Holds, InOrder, MutexOk, Acquire, Release, Minus, Tokens, Counts;
    MinusIs(s.maxcount, s.count);
  }

  lemma ProduceInv(s: State, batch: nat)
    requires Inv(s) && Shape(s) && Ready(s.producer) && 1 <= batch <= SLOTS
    ensures Inv(Produce(s, batch))
  {
    hide Produce, Tape, Tokens, Plan, Shape;
    ProduceTape(s, batch);
    ProduceTokens(s, batch);
    ProducePlan(s, batch);
  }

  lemma ConsumeStock(s: State)
    requires Inv(s) && s.consumer.pc.Move?
    ensures |s.taken| < s.count
  {
    hide Holds, InOrder, MutexOk, Plan;
  }

  lemma ConsumeTape(s: State, batch: nat)
    requires Inv(s) && Shape(s) && Ready(s.consumer)
    ensures Tape(Consume(s, batch))
  {
    hide Holds, InOrder, Clamp, Minus, Tokens, Plan, NextItem, Acquire, Release, Resume;
    if s.consumer.pc.Move? {
      ConsumeStock(s);
      TakeTape(s);
    }
  }

  lemma TakeTape(s: State)
    requires Tape(s) && Shape(s) && |s.taken| < s.count
    ensures var x := s.slots[s.tail]; Tape(s.(out := x, taken := s.taken + [x], tail := (s.tail + 1) % SLOTS))
  {
    hide Holds, InOrder;
    TakeHolds(s.slots, |s.taken|, s.count);
    TakeInOrder(s.taken);
    NextSlot(|s.taken|);
  }

  lemma NextSlot(k: nat)
    ensures (k % SLOTS + 1) % SLOTS == (k + 1) % SLOTS
  {
  }

  lemma ConsumeTokens(s: State, batch: nat)
    requires Inv(s) && Shape(s) && Ready(s.consumer)
    ensures var u := Consume(s, batch); Tokens(u, u.count, |u.taken|)
  {
    hide Tape, Plan, Clamp, Minus, Shape, Counts, MutexOk, Acquire, Release;
    var w, v := s.producer.pc, s.consumer.pc;
    var u := Consume(s, batch);
    match s.consumer.pc
    case Get =>
      AcquireCounts(s.empty, s.count - One(Moved(w)) - |s.taken|, CONSUMER);
      SameMutex(s.mutex, w, v, u.producer.pc, u.consumer.pc);
    case Lock => LockMutex(s.mutex, w, v);
    case Unlock => UnlockMutex(s.mutex, w, v);
    case Signal =>
      ReleaseCounts(s.full, SLOTS - s.count - One(w.Move?) + |s.taken| - One(Moved(v)), w.GetWait?, PRODUCER);
      SameMutex(s.mutex, w, v, u.producer.pc, u.consumer.pc);
    case _ => SameMutex(s.mutex, w, v, u.producer.pc, u.consumer.pc);
  }

  lemma ConsumePlan(s: State, batch: nat)
    requires Inv(s) && Shape(s) && Ready(s.consumer) && 1 <= batch <= SLOTS
    ensures var u := Consume(s, batch); Plan(u, u.count, |u.taken|)
  {
    hide Tokens, Counts, Holds, InOrder, MutexOk, Acquire, Release, Minus;
    MinusIs(s.maxcount, 1);
    MinusIs(s.maxcount, s.out);
    if s.maxcount >= s.out { MinusIs(s.maxcount - s.out, 1); }
  }

  lemma ConsumeInv(s: State, batch: nat)
    requires Inv(s) && Shape(s) && Ready(s.consumer) && 1 <= batch <= SLOTS
    ensures Inv(Consume(s, batch))
  {
    hide Consume, Tape, Tokens, Plan, Shape;
    ConsumeTape(s, batch);
    ConsumeTokens(s, batch);
    ConsumePlan(s, batch);
  }

  // ---------------------------------------------------------------- progress

  /** Actions a worker still has before its next item. */
  function PcRank(pc: Pc): nat {
    match pc
    case Lock => 9
    case LockWait => 8
    case Count => 7
    case Unlock => 6
    case Signal => 5
    case Next => 4
    case Get => 3
    case GetWait => 2
    case Move => 1
    case Done => 0
  }

  function Rank(s: State): int {
    10 * (s.maxcount - s.count) + PcRank(s.producer.pc) + 10 * (s.maxcount - |s.taken|) + PcRank(s.consumer.pc)
  }

  lemma RankPositive(s: State)
    requires Inv(s)
    ensures Rank(s) >= 0
  {
    hide Tokens, Plan, Holds, InOrder;
  }

  lemma ProduceShrinks(s: State, batch: nat)
    requires Shape(s) && Ready(s.producer)
    ensures Rank(Produce(s, batch)) < Rank(s)
  {
    hide Clamp, Minus;
  }

  lemma ConsumeShrinks(s: State, batch: nat)
    requires Shape(s) && Ready(s.consumer)
    ensures Rank(Consume(s, batch)) < Rank(s)
  {
    hide Clamp, Minus;
  }

  predicate Stuck(s: State) { !Ready(s.producer) && !Ready(s.consumer) }

  /**
    * When neither can act: with a limit of at least one both have finished; with none the consumer waits for ever.
    */
  lemma WhenStuck(s: State)
    requires Inv(s) && Stuck(s)
    ensures s.producer.pc.Done? && s.count == s.maxcount
    ensures if s.maxcount >= 1 then s.consumer.pc.Done? else s.consumer.pc.GetWait? && s.empty.waiters == [CONSUMER]
  {
    hide Holds, InOrder;
  }

  // ---------------------------------------------------------------- runs

  /** Who acts, and the random batch size if it chooses one. */
  datatype Turn = Turn(producer: bool, batch: nat)

  ghost predicate Can(s: State, t: Turn) {
    1 <= t.batch <= SLOTS && Ready(if t.producer then s.producer else s.consumer)
  }

  function Step(s: State, t: Turn): State
    requires Inv(s) && Can(s, t)
  {
    InvShape(s); if t.producer then Produce(s, t.batch) else Consume(s, t.batch)
  }

  lemma StepInv(s: State, t: Turn)
    requires Inv(s) && Can(s, t)
    ensures Inv(Step(s, t)) && Rank(Step(s, t)) < Rank(s) && Step(s, t).maxcount == s.maxcount
  {
    hide Inv, Rank;
    InvShape(s);
    if t.producer {
      ProduceInv(s, t.batch);
      ProduceShrinks(s, t.batch);
    } else {
      ConsumeInv(s, t.batch);
      ConsumeShrinks(s, t.batch);
    }
  }

  ghost predicate Possible(s: State, turns: seq<Turn>)
    requires Inv(s)
    decreases |turns|
  {
    turns != [] ==> Can(s, turns[0]) && (StepInv(s, turns[0]); Possible(Step(s, turns[0]), turns[1..]))
  }

  ghost function Run(s: State, turns: seq<Turn>): State
    requires Inv(s) && Possible(s, turns)
    decreases |turns|
  {
    if turns == [] then s else StepInv(s, turns[0]); Run(Step(s, turns[0]), turns[1..])
  }

  lemma {:induction false} RunInv(s: State, turns: seq<Turn>)
    requires Inv(s) && Possible(s, turns)
    ensures Inv(Run(s, turns)) && Run(s, turns).maxcount == s.maxcount && Rank(Run(s, turns)) + |turns| <= Rank(s)
    decreases |turns|
  {
    hide Inv, Rank, Step;
    if turns != [] {
      StepInv(s, turns[0]);
      RunInv(Step(s, turns[0]), turns[1..]);
    }
  }

  // ---------------------------------------------------------------- batches over runs

  function Hand(s: State, producer: bool): Worker { if producer then s.producer else s.consumer }

  function Items(s: State, producer: bool): nat { if producer then s.count else |s.taken| }

  ghost function Choice(s: State, t: Turn, producer: bool): seq<Positive>
    requires Can(s, t)
  {
    if t.producer == producer && Hand(s, producer).pc.Next? then [t.batch] else []
  }

  /** The random numbers that one of the two threads gets in a run. */
  ghost function Chosen(s: State, turns: seq<Turn>, producer: bool): seq<Positive>
    requires Inv(s) && Possible(s, turns)
    decreases |turns|
  {
    if turns == [] then []
    else
      StepInv(s, turns[0]);
      Choice(s, turns[0], producer) + Chosen(Step(s, turns[0]), turns[1..], producer)
  }

  type Positive = n: nat | n > 0 witness 1

  function Sum(batches: seq<Positive>): (n: nat)
    ensures n >= |batches|
  {
    if batches == [] then 0 else batches[0] + Sum(batches[1..])
  }

  /** The items a thread will have moved at the end of its batch. */
  function Goal(s: State, producer: bool): int {
    var w := Hand(s, producer);
    if w.pc.Next? || w.pc.Done? then Items(s, producer)
    else Items(s, producer) - w.i - One(Moved(w.pc)) + w.n
  }

  /** From `g` items on with these batches, where a first batch ends at `first` at the latest, and others at `max`. */
  function Reached(g: int, batches: seq<Positive>, first: int, max: int): int {
    var bound := if g == 0 && |batches| == 1 then first else max;
    if g + Sum(batches) <= bound then g + Sum(batches) else bound
  }

  function First(s: State, producer: bool): int { if producer then s.maxcount else s.maxcount - 1 }

  lemma ProduceGoal(s: State, batch: nat)
    requires Inv(s) && Shape(s) && Ready(s.producer) && 1 <= batch <= SLOTS
    ensures var u := Produce(s, batch);
      && Goal(u, true) == (if !s.producer.pc.Next? then Goal(s, true)
                           else Reached(s.count, [batch], s.maxcount, s.maxcount))
      && Goal(u, false) == Goal(s, false)
  {
    hide Holds, InOrder, MutexOk, Acquire, Release, Minus, Counts, Shape, Tokens, Clamp, Reached;
    if s.producer.pc.Next? { ProduceChoice(s, batch); }
  }

  lemma ProduceChoice(s: State, batch: nat)
    requires Tape(s) && Shape(s) && s.producer.pc.Next? && 1 <= batch
    ensures Goal(Produce(s, batch), true) == Reached(s.count, [batch], s.maxcount, s.maxcount)
  {
    hide Holds, InOrder, Minus, Shape, Acquire, Release;
    MinusIs(s.maxcount, s.count);
    SumOne(batch);
  }

  lemma ConsumeGoal(s: State, batch: nat)
    requires Inv(s) && Shape(s) && Ready(s.consumer) && 1 <= batch <= SLOTS
    ensures var u := Consume(s, batch);
      && (s.maxcount >= 2 ==>
            Goal(u, false) == if !s.consumer.pc.Next? then Goal(s, false)
                              else Reached(|s.taken|, [batch], s.maxcount - 1, s.maxcount))
      && Goal(u, true) == Goal(s, true)
  {
    hide Holds, InOrder, MutexOk, Acquire, Release, Minus, Counts, Shape, Tokens, Clamp, Reached;
    if s.consumer.pc.Next? && s.maxcount >= 2 { ConsumeChoice(s, batch); }
  }

  lemma ConsumeChoice(s: State, batch: nat)
    requires Tape(s) && Shape(s) && s.consumer.pc.Next? && 1 <= batch && s.maxcount >= 2
    ensures Goal(Consume(s, batch), false) == Reached(|s.taken|, [batch], s.maxcount - 1, s.maxcount)
  {
    hide Holds, InOrder, Minus, Shape, Acquire, Release;
    MinusIs(s.maxcount, 1);
    MinusIs(s.maxcount, s.out);
    MinusIs(s.maxcount - s.out, 1);
    SumOne(batch);
  }

  lemma GoalWithin(s: State, producer: bool)
    requires Inv(s) && (producer || s.maxcount >= 1)
    ensures 0 <= Goal(s, producer) <= s.maxcount
  {
    hide Holds, InOrder, Tokens;
  }

  lemma SumOne(b: Positive)
    ensures Sum([b]) == b
  {
    assert [b][1..] == [];
  }

  lemma ReachedNext(g: int, b: Positive, rest: seq<Positive>, first: int, max: int)
    requires 0 <= g <= max && (first == max || first == max - 1 >= 1)
    ensures Reached(g, [b] + rest, first, max) == Reached(Reached(g, [b], first, max), rest, first, max)
  {
    assert ([b] + rest)[1..] == rest;
    SumOne(b);
    assert Sum([b] + rest) == b + Sum(rest);
  }

  lemma StepGoal(s: State, t: Turn, producer: bool)
    requires Inv(s) && Can(s, t) && (producer || s.maxcount >= 2)
    ensures Goal(Step(s, t), producer)
         == if t.producer == producer && Hand(s, producer).pc.Next?
            then Reached(Goal(s, producer), [t.batch], First(s, producer), s.maxcount) else Goal(s, producer)
  {
    hide Inv, Reached, Produce, Consume;
    InvShape(s);
    if t.producer { ProduceGoal(s, t.batch); } else { ConsumeGoal(s, t.batch); }
  }

  /** Whatever the two threads do in between, the batches chosen add up. */
  lemma {:induction false} RunGoal(s: State, turns: seq<Turn>, producer: bool)
    requires Inv(s) && Possible(s, turns) && (producer || s.maxcount >= 2)
    ensures Goal(Run(s, turns), producer)
         == Reached(Goal(s, producer), Chosen(s, turns, producer), First(s, producer), s.maxcount)
    decreases |turns|
  {
    hide Inv, Goal;
    if turns == [] {
      GoalWithin(s, producer);
      assert Sum([]) == 0;
    } else {
      var t := turns[0];
      StepInv(s, t);
      var rest := Chosen(Step(s, t), turns[1..], producer);
      StepGoal(s, t, producer);
      RunGoal(Step(s, t), turns[1..], producer);
      GoalWithin(s, producer);
      if Choice(s, t, producer) == [] {
        assert [] + rest == rest;
      } else {
        ReachedNext(Goal(s, producer), t.batch, rest, First(s, producer), s.maxcount);
      }
    }
  }

  /**
    * Every batch is used: between two choices of the producer, with one batch or many, it puts as many items as the
    * random numbers say, or all that are left.
    */
  lemma ProducerBatches(s: State, turns: seq<Turn>)
    requires Inv(s) && Possible(s, turns) && s.producer.pc.Next?
    requires Run(s, turns).producer.pc.Next? || Run(s, turns).producer.pc.Done?
    ensures var n := s.count + Sum(Chosen(s, turns, true));
      Run(s, turns).count == if n <= s.maxcount then n else s.maxcount
  {
    hide Inv;
    RunGoal(s, turns, true);
  }

  /** So does the consumer, but its first batch never takes the last item; with a limit below two it takes none. */
  lemma ConsumerBatches(s: State, turns: seq<Turn>)
    requires Inv(s) && Possible(s, turns) && s.consumer.pc.Next?
    requires Run(s, turns).consumer.pc.Next? || Run(s, turns).consumer.pc.Done?
    ensures var batches := Chosen(s, turns, false);
      var n, k := |s.taken| + Sum(batches), |Run(s, turns).taken|;
      if s.maxcount < 2 then k == 0
      else if s.taken == [] && |batches| == 1 then k == if n <= s.maxcount - 1 then n else s.maxcount - 1
      else k == if n <= s.maxcount then n else s.maxcount
  {
    if s.maxcount >= 2 {
      RunGoal(s, turns, false);
    } else {
      RunInv(s, turns);
    }
  }

  function Numbers(n: nat): seq<nat> { seq(n, i => i) }

  /**
    * In whatever order the two threads act and whatever batches they choose: the consumer takes 0, 1, 2 and so on; the
    * size stays within the buffer; the run ends. When it has ended, all numbers are taken exactly if the limit is not
    * one, and nobody is left waiting exactly if the limit is not zero.
    */
  lemma BufferCorrect(maxcount: Limit, turns: seq<Turn>)
    requires (InitInv(maxcount); Possible(Init(maxcount), turns))
    ensures var s := Run(Init(maxcount), turns);
      && |s.taken| <= s.count <= maxcount && s.taken == Numbers(|s.taken|)
      && 0 <= s.size <= 16
      && |turns| <= 20 * maxcount + 8
      && (Stuck(s) ==>
            && s.count == maxcount
            && (s.taken == Numbers(maxcount) <==> maxcount != 1)
            && (s.producer.pc.Done? && s.consumer.pc.Done? <==> maxcount != 0))
  {
    InitInv(maxcount);
    RunInv(Init(maxcount), turns);
    var s := Run(Init(maxcount), turns);
    RankPositive(s);
    Ends(s);
  }

  lemma Ends(s: State)
    requires Inv(s)
    ensures |s.taken| <= s.count <= s.maxcount && s.taken == Numbers(|s.taken|) && 0 <= s.size <= SLOTS
    ensures Stuck(s) ==>
      && s.count == s.maxcount
      && (s.taken == Numbers(s.maxcount) <==> s.maxcount != 1)
      && (s.producer.pc.Done? && s.consumer.pc.Done? <==> s.maxcount != 0)
  {
    hide Holds;
    if Stuck(s) { WhenStuck(s); }
  }

  /** A slot about to be filled holds nothing still to be taken; one about to be emptied holds the next number. */
  lemma NoOverwrite(s: State)
    requires Inv(s)
    ensures s.producer.pc.Move? ==> forall j | |s.taken| <= j < s.count :: j % SLOTS != s.head
    ensures s.consumer.pc.Move? ==> s.tail < |s.slots| && s.slots[s.tail] == |s.taken| < s.count
  {
    hide InOrder, MutexOk, BatchOk;
    if s.producer.pc.Move? {
      forall j | |s.taken| <= j < s.count ensures j % SLOTS != s.head { Apart(j, s.count); }
    }
    if s.consumer.pc.Move? { TakeHolds(s.slots, |s.taken|, s.count); }
  }

  /**
    * The producer blocks exactly if sixteen items are put and their slots not given back, the consumer exactly if
    * every item that is signalled is taken.
    */
  lemma WaitsExactly(s: State, batch: nat)
    requires Inv(s) && Shape(s)
    ensures s.producer.pc.Get? ==>
      (Produce(s, batch).producer.pc.GetWait? <==> s.count - |s.taken| + One(Moved(s.consumer.pc)) == 16)
    ensures s.consumer.pc.Get? ==>
      (Consume(s, batch).consumer.pc.GetWait? <==> |s.taken| == s.count - One(Moved(s.producer.pc)))
  {
    hide Tape, Plan, MutexOk;
  }

  /** The two threads are never both inside the mutex. */
  lemma MutualExclusion(s: State)
    requires Inv(s)
    ensures !(InMutex(s.producer.pc) && InMutex(s.consumer.pc))
  {
    hide Holds, InOrder, BatchOk;
  }
}
