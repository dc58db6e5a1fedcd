/** The cooperative scheduler and its semaphores on values: who runs, who is ready, who waits where. */
module Sched {
  /** A thread control block's address; never NULL. */
  type Tid = t: int | t > 0 witness 1

  /** The running thread and the FIFO ready queue. */
  datatype Core = Core(current: Tid, ready: seq<Tid>)

  datatype Sem = Sem(count: int, waiters: seq<Tid>)

  /** The head of the ready queue runs next. */
  function Switch(c: Core): Core
    requires c.ready != []
  {
    Core(c.ready[0], c.ready[1..])
  }

  /** The running thread goes to the back of the queue before the head is taken: it may be itself. */
  function Yield(c: Core): Core {
    Switch(c.(ready := c.ready + [c.current]))
  }

  function Unblock(c: Core, t: Tid): Core { c.(ready := c.ready + [t]) }

  /** Thread `t` takes a unit, or joins the waiters. */
  function Acquire(s: Sem, t: Tid): (r: (Sem, bool)) {
    if s.count == 0 then (s.(waiters := s.waiters + [t]), false) else (s.(count := s.count - 1), true)
  }

  /** A unit is released: the oldest waiter, if there is one, gets it at once and is the thread woken. */
  function Release(s: Sem): (r: (Sem, seq<Tid>)) {
    if s.waiters == [] then (s.(count := s.count + 1), []) else (s.(waiters := s.waiters[1..]), [s.waiters[0]])
  }

  /** Without a unit to take, the running thread gives way. */
  function Down(c: Core, s: Sem): (Core, Sem)
    requires s.count == 0 ==> c.ready != []
  {
    var (m, taken) := Acquire(s, c.current);
    (if taken then c else Switch(c), m)
  }

  /** A woken thread becomes ready; the running one goes on. */
  function Up(c: Core, s: Sem): (Core, Sem) {
    var (m, woken) := Release(s);
    (if woken == [] then c else Unblock(c, woken[0]), m)
  }

  /** Units are never owed, and none is lying about while somebody waits. */
  predicate SemOk(s: Sem) { s.count >= 0 && (s.waiters != [] ==> s.count == 0) }

  /** One unit, if there is one. */
  function One(b: bool): nat { if b then 1 else 0 }
}
