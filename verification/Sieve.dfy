/** The sieve as a system of threads over channels: a source, one filter per prime found, a sink. */
module Sieve {
  import opened Streams
  import opened Sched

  /** The next atomic action of a thread, or where it is blocked. */
  datatype Pc =
    | Take        // wait for a value on the left
    | TakeWait    // blocked there
    | Read        // copy the value
    | Ack         // tell the writer
    | Grow        // print, and put a new filter before the sink
    | Put         // store a value on the right
    | Offer       // tell the reader
    | Confirm     // wait for the reader
    | ConfirmWait // blocked there
    | Close       // destroy the left channel
    | Done

  datatype Thread =
    | Source(pc: Pc, i: nat)
    | Filter(pc: Pc, prime: nat, value: CInt)
    | Sink(pc: Pc, value: CInt)

  /** `sent` and `got` count the values stored and copied so far; no thread looks at them. */
  datatype Chan = Chan(value: CInt, produce: Sem, consume: Sem, sent: nat, got: nat, freed: bool)

  /**
    * Channel `c` leads from thread `c` to thread `c + 1`; the sink is last. `running` is the thread that moved last.
    */
  datatype State = State(max: Limit, threads: seq<Thread>, chans: seq<Chan>, printed: seq<CInt>, running: Tid)

  const NO_UNIT: Sem := Sem(0, [])
  const FRESH: Chan := Chan(0, NO_UNIT, NO_UNIT, 0, 0, false)
  const SINK: Tid := 2

  /** The sink has made the first channel and the source, and goes on running. */
  function Init(max: Limit): State {
    State(max, [Source(Put, 2), Sink(Take, 0)], [FRESH], [], SINK)
  }

  /** Thread ids in order of creation: the sink, the source, then the filters. */
  function Id(s: State, j: nat): Tid { if j == |s.threads| - 1 then SINK else j + 3 }

  function Position(s: State, t: Tid): int { if t == SINK then |s.threads| - 1 else t - 3 }

  /** The actions of each kind of thread. */
  predicate PcFits(t: Thread) {
    match t
    case Source(pc, _) => pc.Put? || pc.Offer? || pc.Confirm? || pc.ConfirmWait? || pc.Done?
    case Filter(pc, _, _) => !pc.Grow?
    case Sink(pc, _) => pc.Take? || pc.TakeWait? || pc.Read? || pc.Ack? || pc.Grow? || pc.Close? || pc.Done?
  }

  predicate Shape(s: State) {
    && |s.threads| == |s.chans| + 1 >= 2
    && (forall j | 0 <= j < |s.threads| :: PcFits(s.threads[j]))
    && s.threads[0].Source?
    && s.threads[|s.threads| - 1].Sink?
    && (forall j | 0 < j < |s.threads| - 1 :: s.threads[j].Filter?)
  }

  predicate Blocked(pc: Pc) { pc.TakeWait? || pc.ConfirmWait? }

  predicate Ready(s: State, j: nat) { j < |s.threads| && !Blocked(s.threads[j].pc) && !s.threads[j].pc.Done? }

  // ---------------------------------------------------------------- the actions

  /** The thread at another action. */
  function Move(t: Thread, pc: Pc): Thread {
    match t
    case Source(_, i) => Source(pc, i)
    case Filter(_, prime, value) => Filter(pc, prime, value)
    case Sink(_, value) => Sink(pc, value)
  }

  /** The thread at another action, with a value read. */
  function Having(t: Thread, pc: Pc, v: CInt): Thread {
    match t
    case Source(_, i) => Source(pc, i)
    case Filter(_, prime, _) => Filter(pc, prime, v)
    case Sink(_, _) => Sink(pc, v)
  }

  /** What a thread stores next. */
  function Outgoing(max: Limit, t: Thread): CInt {
    if t.Source? then if t.i <= max then ToInt(t.i) else END else t.value
  }

  /** A filter passes the value on or drops it; the sink stops at the marker. */
  function AfterAck(t: Thread): Thread
    requires !t.Source?
  {
    if t.Filter? then Move(t, if Keeps(t.prime, t.value) then Put else Take)
    else Move(t, if t.value == END then Close else Grow)
  }

  function AfterConfirm(max: Limit, t: Thread): Thread
    requires !t.Sink?
  {
    if t.Source? then if t.i <= max then Source(Put, t.i + 1) else Source(Done, t.i)
    else Move(t, if t.value == END then Close else Take)
  }

  /** A blocked thread goes on as if its wait had succeeded. */
  function Resume(max: Limit, t: Thread): Thread {
    if t.pc.TakeWait? then Move(t, Read)
    else if t.pc.ConfirmWait? && !t.Sink? then AfterConfirm(max, t)
    else t
  }

  function Wake(s: State, woken: seq<Tid>): State {
    if woken == [] then s
    else
      var j := Position(s, woken[0]);
      if 0 <= j < |s.threads| then s.(threads := s.threads[j := Resume(s.max, s.threads[j])]) else s
  }

  /** Puts thread `j` and channel `c` back. */
  function With(s: State, j: nat, t: Thread, c: nat, ch: Chan): State
    requires j < |s.threads| && c < |s.chans|
  {
    s.(threads := s.threads[j := t], chans := s.chans[c := ch])
  }

  /** A new channel and filter: the filter takes over the sink's place, the sink reads from the new channel. */
  function Grown(s: State): State
    requires Shape(s)
  {
    var n := |s.threads| - 1;
    s.(threads := s.threads[..n] + [Filter(Take, ToUnsigned(s.threads[n].value), 0), Move(s.threads[n], Take)],
       chans := s.chans + [FRESH],
       printed := s.printed + [s.threads[n].value])
  }

  /** One atomic action of thread `j`. */
  function Act(s: State, j: nat): State
    requires Shape(s) && Ready(s, j)
  {
    var t := s.threads[j];
    match t.pc
    case Take =>
      var (m, taken) := Acquire(s.chans[j - 1].consume, Id(s, j));
      With(s, j, Move(t, if taken then Read else TakeWait), j - 1, s.chans[j - 1].(consume := m))
    case Read =>
      var ch := s.chans[j - 1];
      With(s, j, Having(t, Ack, ch.value), j - 1, ch.(got := ch.got + 1))
    case Ack =>
      var (m, woken) := Release(s.chans[j - 1].produce);
      Wake(With(s, j, AfterAck(t), j - 1, s.chans[j - 1].(produce := m)), woken)
    case Grow => Grown(s)
    case Put =>
      var ch := s.chans[j];
      With(s, j, Move(t, Offer), j, ch.(value := Outgoing(s.max, t), sent := ch.sent + 1))
    case Offer =>
      var (m, woken) := Release(s.chans[j].consume);
      Wake(With(s, j, Move(t, Confirm), j, s.chans[j].(consume := m)), woken)
    case Confirm =>
      var (m, taken) := Acquire(s.chans[j].produce, Id(s, j));
      With(s, j, if taken then AfterConfirm(s.max, t) else Move(t, ConfirmWait), j, s.chans[j].(produce := m))
    case Close => With(s, j, Move(t, Done), j - 1, s.chans[j - 1].(freed := true))
  }

  function Step(s: State, j: nat): State
    requires Shape(s) && Ready(s, j)
  {
    var t := Act(s, j);
    t.(running := Id(s, j))
  }
}
